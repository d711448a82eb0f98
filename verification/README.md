# Domain monitoring service: a verified model

A Dafny 4.11 model of the domain monitoring service and proofs of what it promises over whole
executions. `dafny verify dfyconfig.toml` checks all of it.

A database transaction is one atomic step. Time is an integer on one clock (milliseconds; ticks in
`HistoryWindow`). Identifiers are natural numbers. Random identifiers, jitter, rows skipped because another
session holds them, the order in which a query or a Go map yields its rows, server replies and crashes are
parameters, so every theorem holds for all of them.

| file | part of the system |
|---|---|
| `Hysteresis.dfy` | how one check advances a domain's effective state, and the closed form of any history |
| `Ledger.dfy` | incidents and status history beside that state |
| `Pipeline.dfy` | runs, outbox, dispatchers, stream, deliveries and worker claims as one state machine |
| `Probes.dfy` | remote probe nodes, leased jobs and results as a state machine |
| `System.dfy` | both machines writing to the same domains |
| `MonitorStore.dfy`, `ProbeStore.dfy` | the transactions statement by statement, proved against the machines' actions |
| `Decimals.dfy`, `Costs.dfy`, `Budget.dfy` | exact decimals, tax and currency, the budget summary loop |
| `HistoryWindow.dfy` | uptime over a window of the status history |
| `Redirects.dfy` | the redirect follower |
| `SheetPreview.dfy`, `SheetApply.dfy` | spreadsheet reconciliation: preview, then apply |
| `Text.dfy`, `Selection.dfy`, `Settings.dfy`, `Arithmetic.dfy` | string helpers, bounded selection, configuration limits, small arithmetic facts |

An action of a state machine whose guard fails leaves the state unchanged. Any list of actions is therefore an
execution, and a theorem over all lists covers every interleaving. The main results:

* `System.EveryDomainIsExplained`: in every reachable state of the whole service, each domain is explained by the
  commits that concern it: each completed run of the domain exactly once, and the probe results accepted for it, in
  commit order and nothing else. The availability and the streaks are the closed form of the counted outcomes; every
  other status is the latest informative local report or remote result; the failure stage and error code are those of the
  last check, the confidence that of the last counted one; the incident table is in lockstep with the outcomes, with one
  incident for every time the threshold was reached anew; the history is a chain ending at the stored values, made of
  one stretch per commit that carries the commit's run and confidence.
* `Pipeline.AtMostOnce`, `OneLiveRunPerDomain`, `OutboxMatchesRuns`, `NoRunIsLost`: exactly-once effect over an
  at-least-once queue.
* `Probes.OneResultPerJob`, `ClosedJobsAbsorb`, `RevocationIsFinal`: safety of remote leases.
* `MonitorStore.Database.ScheduleDue`, `MonitorStore.Database.RunOnce`, `ProbeStore.Service.DispatchPending`: the
  transactions as executions of those machines, which rows each of them picks, and what becomes of every row.
* `Costs.CalculateCharges`: what a priced record reports, from its texts alone.
* `Budget.SummaryNear`: a bound on the rounding error of the reported totals, for any list of costs and rates.
* `Decimals.RoundTrip`, `PrintCanonical`, `SheetRateLimit`: the printed form of exact decimals.
* `HistoryWindow.Aggregate.Calculate`: the one-pass aggregate is the pointwise measure of the window.
* `Redirects.CheckAttempt`: the redirect follower against an arbitrary server.
* `SheetApply.ApplyRealises` and `ApplySucceeds`: an applied import realises every valid row field by field, whatever
  the other rows do, and exactly which imports are refused.

Where the code does less than its documentation or schema suggests, the model follows the code and states exactly
when the promise holds:

* A run that is overdue before its first claim cannot be expired: the update would set a completion time on a row
  without a start time, which a CHECK constraint forbids. `Pipeline.ExpiryNeedsStart` gives the exact condition,
  `Pipeline.OverdueBeforeStartHappens` an execution that reaches such a run, and `Pipeline.OverdueBeforeStartIsStuck`
  the consequence.
* A manual or inconclusive check leaves all statuses alone but clears the failure stage and the error code.
  `Hysteresis.IdleObservationKeepsRow` says exactly when the row is unchanged, and
  `Hysteresis.ManualCheckClearsStage` shows a history in which it is not.
* Equal rounded values do not always print alike: a value just below zero prints a minus sign although it rounds to
  zero. `Decimals.PrintCanonical` is the exact condition, `Decimals.NegativeZero` the example, and
  `Decimals.AcceptedCanonical` the statement for parsed values.
* Completing a run asks only that it is running, so a worker whose run was taken over can still commit it.
  `Pipeline.CommitterHoldsRun` says exactly when the committing worker holds the run. Over the settings,
  `Pipeline.NoStaleCommit` and `Pipeline.StaleCommitHappens` draw the line: as long as nothing calls
  `FailRun`, it cannot happen when the lease is at least the run timeout or one attempt is allowed, and it can otherwise.
* A valid preview can still fail to apply: a price in a currency the database does not know, a number too large for its
  column or an overlong registrar name aborts the import. `SheetApply.ApplySucceeds` is the exact condition and
  `SheetApply.UnknownCurrencyAborts` the example.
* A domain that a sheet lists twice is reported missing from it, because both rows are set aside:
  `SheetPreview.ListedTwiceIsMissing`.

## Model

| member | source | states |
|---|---|---|
| `Hysteresis.Advance` | internal/classification/state.go:38-92 | the state after one observation, the exact set of changed dimensions, and when the opened and closed flags are set |
| `Hysteresis.ChangedDimensions` | internal/classification/state.go:101-115 | the loop lists exactly the dimensions whose value differs, in the fixed order |
| `Hysteresis.ChangedIsDiff` | internal/classification/state.go:101-115 | a dimension is listed if and only if it changed, and never twice |
| `Hysteresis.IdleObservationKeepsRow` | internal/classification/state.go:38-53 | a manual or inconclusive check changes no status, and leaves the whole row alone if and only if no failure stage and error code were stored |
| `Hysteresis.ManualCheckClearsStage` | internal/classification/state.go:38-53 | a failed check stores its stage and code, and the manual check after it clears both |
| `Hysteresis.FoldIsClosedForm` | internal/classification/state.go:54-80 | folding any history gives the closed form of its counted outcomes, and the stored streaks are the trailing run lengths |
| `Hysteresis.TrailingIsSuffix` | internal/classification/state.go:54-80 | the trailing length used by the closed form is the longest suffix of equal outcomes |
| `Hysteresis.StatusIsLatestReport` | internal/classification/state.go:81-99 | every other dimension holds its latest informative report |
| `Hysteresis.FoldConfidence` | internal/classification/state.go:38-92 | the stored confidence is that of the last check that was scheduled and conclusive, or 0 |
| `Ledger.ReplayIsClosedForm` | internal/classification/state.go:38-92 | the same closed form when remote ISP results are interleaved with local checks |
| `Ledger.ReplayIsLatest` | internal/probe/results.go:160-162 | every other status is the latest informative local report or, for the ISP status, the latest of those and the remote results |
| `Ledger.ReplayDetails` | internal/classification/state.go:54-80 | failure stage and error code are those of the last local check if it was a counted failure, and empty otherwise |
| `Ledger.ReplayConfidence` | internal/monitor/complete.go:104-120 | the same confidence when remote results are interleaved |
| `Ledger.Lockstep` | internal/monitor/complete.go:270-327 | after any commits there is never a second active incident; unavailable implies one, active and unknown imply none; an active incident's close count is the success streak, its open count the largest failure streak since the check that opened it, its stage and code those of the last failure; and the account of all incidents |
| `Ledger.IncidentStepInStep` | internal/monitor/complete.go:270-327 | one counted check keeps the incident table in step with the outcomes |
| `Ledger.IncidentStepAccounted` | internal/monitor/complete.go:270-327 | there is one incident for each time the failures reached the threshold anew, and every closed one records who opened it, who closed it after a full recovery, the peak and the last failure |
| `Ledger.FlappingBound` | internal/monitor/complete.go:282-326 | opened * open + closed * close is at most the counted checks, opened and closed differ by at most one, hence the bound on opened incidents |
| `Ledger.HistoryIsChain` | internal/monitor/complete.go:242-268 | for every dimension the history log is a chain: each entry's previous value is the value before it, never NULL, consecutive values differ, and the last is the stored one, across local and remote commits |
| `Ledger.HistoryAttributed` | internal/monitor/complete.go:242-268 | the history is one stretch per commit, each row with that commit's run and confidence, and after each commit the log says of every dimension what the commits so far make of it |
| `Ledger.RemoteStaysFaithful` | internal/probe/results.go:146-162 | a remote ISP result extends the chain |
| `Pipeline.AtMostOnce` | internal/monitor/complete.go:128-143 | in every interleaving each run commits at most once, is completed exactly when it has, and never leaves that state |
| `Pipeline.OneLiveRunPerDomain` | internal/monitor/store.go:86-130 | at most one run of a domain is running inside its lease, and attempts never exceed the maximum |
| `Pipeline.OutboxMatchesRuns` | internal/queue/outbox.go:94-202 | one event per run and one run per key; failed exactly when attempts are used up; dispatched means appended; both are final |
| `Pipeline.LostLeaseRecordsNothing` | internal/queue/outbox.go:165-202 | whatever the state and the action, an event's attempts grow or it becomes dispatched or failed only by a record of the dispatcher that holds its lease; one without the lease changes no event and gives up its batch |
| `Pipeline.LeaseIsRespected` | internal/queue/outbox.go:100-130 | until a lease lapses only its holder changes the event; once lapsed, the next claim takes it back or leases it anew |
| `Pipeline.BackoffDoubles` | internal/queue/outbox.go:181-200 | the pause is two seconds after the first failure, doubles with each further one and stops at five minutes |
| `Pipeline.AcknowledgedIsFinished` | internal/queue/consumer.go:52-60 | a message is acknowledged only when its run is finished, and it stays finished |
| `Pipeline.NoRunIsLost` | internal/queue/outbox.go:34-47 | an unfinished run is still to be dispatched, or in an unacknowledged message, or its event is one the outbox has given up on |
| `Pipeline.CommitterHoldsRun` | internal/monitor/complete.go:128-138 | the worker that commits a run holds it if and only if the run was not claimed again since its claim |
| `Pipeline.NoStaleCommit` | internal/monitor/store.go:72-130 | with a lease of at least the run timeout, or a single attempt, and no call of `FailRun` (the repository has none), every commit is by the holder |
| `Pipeline.StaleCommitHappens` | internal/monitor/complete.go:128-138 | with any other settings there is an execution in which a worker whose run was taken over commits it |
| `Pipeline.SettledClaim` | internal/monitor/store.go:69-121 | a claim that lets the handler succeed without executing leaves its run finished |
| `Pipeline.ExpiryNeedsStart` | internal/monitor/store.go:72-85 | expiry takes effect if and only if the run had been started |
| `Pipeline.OverdueBeforeStartHappens` | internal/monitor/store.go:72-85 | a run that is created and not claimed before its deadline is such a run, and every claim of it is refused |
| `Pipeline.OverdueBeforeStartIsStuck` | migrations/00002_monitoring_and_intelligence.sql:37-58 | a run overdue before its first claim keeps its row for ever and its messages are never acknowledged |
| `Pipeline.ExecKept` | internal/queue/outbox.go:73-92 | the whole invariant holds along every execution, and nothing settled is undone |
| `Probes.OneResultPerJob` | internal/probe/results.go:66-74 | at most one result per job, from its own probe with its own nonce, before a lease end that is never after the expiry; attempts stay within 20 |
| `Probes.ClosedJobsAbsorb` | internal/probe/jobs.go:119-165 | completed, expired and cancelled jobs never change |
| `Probes.RevocationIsFinal` | internal/probe/auth.go:343-373 | a revoked probe stays revoked, has no open job and gets no further result, also for principals authenticated earlier |
| `Probes.ExecKept` | internal/probe/jobs.go:18-170 | the probe invariant holds along every execution |
| `System.ReachedSound` | internal/monitor/complete.go:18-144 | every reachable state of the whole service satisfies both machines' invariants, and each domain is the replay of its own log |
| `System.EveryDomainIsExplained` | internal/monitor/complete.go:18-144 | closed form, latest word of every other status, failure details, confidence, incident lockstep and account, flapping bound, history chain and its attribution hold of every domain in every reachable state, over exactly its completed runs, once each, and exactly the results accepted for it |
| `System.EachRunCountsOnce` | internal/monitor/complete.go:128-143 | no run contributes twice to a domain's streaks |
| `MonitorStore.Database.ClaimExecution` | internal/monitor/store.go:29-137 | exactly when a run is claimed or expired, its new row in both cases, and nothing otherwise |
| `MonitorStore.Database.FailRun` | internal/monitor/store.go:139-154 | the run fails unless completed, or nothing changes |
| `MonitorStore.Database.PersistHistory` | internal/monitor/complete.go:242-268 | one entry per changed dimension is appended |
| `MonitorStore.Database.ApplyIncident` | internal/monitor/complete.go:270-327 | the incident table after a qualifying check |
| `MonitorStore.Database.CompleteRun` | internal/monitor/complete.go:18-144 | this is the pipeline's completion action: the run's own domain gets row, history and incidents together with the completed run, or, when the run is no longer running, nothing changes |
| `MonitorStore.Database.CreateManualRun` | internal/monitor/service.go:46-104 | the same user, domain and key name one run; exactly which answer each request gets; a created run is queued with its full deadline |
| `MonitorStore.Database.ScheduleDue` | internal/monitor/scheduler.go:22-99 | the first due schedules in the query's order, up to the limit, are processed; each has the run of its second afterwards, new runs and events are untouched ones, every processed schedule moves on, or everything is rolled back |
| `MonitorStore.ProcessedOnce` | internal/monitor/scheduler.go:63-99 | a processed schedule is not due again at the same instant |
| `MonitorStore.SlotIsSecond` | internal/monitor/scheduler.go:63-65 | two due times share a run if and only if they lie in the same second of the same domain under one policy version |
| `MonitorStore.CreatedManyMeans` | internal/monitor/scheduler.go:66-83 | existing runs and events are kept; new ones belong to the slots, runs queued with their full deadline and events ready at once |
| `Selection.FirstOfUnique` | internal/monitor/scheduler.go:29-39 | filter, order and limit determine the selection |
| `MonitorStore.CreatedManyIsExec` | internal/monitor/scheduler.go:63-83 | the scheduler's transaction is an execution of the pipeline |
| `MonitorStore.Database.ClaimEvents` | internal/queue/outbox.go:94-144 | the first waiting events in the query's order, up to the batch size, are leased; abandoned ones are requeued; the others are left alone |
| `MonitorStore.Database.RecordDispatched` | internal/queue/outbox.go:165-179 | succeeds exactly with the lease |
| `MonitorStore.Database.RecordFailure` | internal/queue/outbox.go:181-202 | succeeds exactly with the lease; attempts, backoff and final failure |
| `MonitorStore.Database.RunOnce` | internal/queue/outbox.go:73-92 | an uninterrupted turn is an execution of its actions: the first waiting events are leased, each append that was not refused reaches the stream in order, and every event is settled by its reply |
| `ProbeStore.Service.HeartbeatOf` | internal/probe/auth.go:276-318 | the reported status and the time are stored, and nothing for a revoked node |
| `ProbeStore.Service.RevokeNode` | internal/probe/auth.go:343-373 | the node is revoked and exactly its open jobs are cancelled |
| `ProbeStore.Service.DispatchPending` | internal/probe/jobs.go:18-107 | sweep, selection and inserts are the dispatch action: the first available node, the first runs without a job there up to the batch size, one queued job each; a colliding identifier rolls everything back |
| `ProbeStore.Service.SelectRuns` | internal/probe/jobs.go:36-60 | exactly the first recent runs without a job for the probe, in the query's order |
| `ProbeStore.Service.ClaimJob` | internal/probe/jobs.go:109-170 | requeue, expiry and lease are the claim action: the first job on offer is leased, never beyond its expiry, and one is given if and only if one is on offer |
| `ProbeStore.Service.SubmitResult` | internal/probe/results.go:25-177 | exactly when a submission is accepted and which error the others get; an accepted one completes the job and commits the ISP status and its history |
| `Decimals.PrintParses` | internal/finance/decimal.go:62-67 | reading a printed decimal back gives the nearest multiple of its unit, halves away from zero |
| `Decimals.PartsAreUnits` | internal/finance/decimal.go:62-67 | the quotient, remainder and carry of fixed-point printing are the nearest number of units |
| `Decimals.RoundedNear` | internal/finance/decimal.go:62-67 | printing is off by at most half a unit |
| `Decimals.RoundedMonotone` | internal/finance/decimal.go:62-67 | printing preserves order |
| `Decimals.ParsedOnGrid` | internal/finance/decimal.go:18-31 | an accepted decimal is a multiple of its unit |
| `Decimals.ParseSpelled` | internal/finance/decimal.go:10-31 | a sign or none, digits, and optionally a point with digits is read as the number it spells, unless it has too many decimals |
| `Decimals.ParseOnlySpelled` | internal/finance/decimal.go:10-31 | and nothing else is read |
| `Decimals.RoundTrip` | internal/finance/decimal.go:18-31 | parse, print at the scale, parse again: the same value |
| `Decimals.PrintCanonical` | internal/finance/decimal.go:62-67 | equal texts if and only if equal rounded values and equal signs |
| `Decimals.AcceptedCanonical` | internal/finance/decimal.go:62-67 | on accepted decimals, equal texts if and only if equal values |
| `Decimals.NegativeZero` | internal/finance/decimal.go:62-67 | two values that round alike and print differently |
| `Decimals.SheetRateLimit` | internal/sheets/model.go:258-269 | the sheet's comparison of texts holds exactly when the rate exceeds one, at any scale |
| `Decimals.LimitText` | internal/sheets/model.go:264-264 | at scale ten the limit is the text in the source |
| `Costs.CalculateAccepts` | internal/finance/engine.go:37-91 | exactly which records are priced and which completely |
| `Costs.CalculateCharges` | internal/finance/engine.go:37-107 | for every priced record, from its texts: amount, currency and cycle as stated, and the prints of the charge that is fair for the tax mode the text names; for an unknown mode only a warning |
| `Costs.ChargeIsFair` | internal/finance/engine.go:75-106 | each tax mode satisfies its defining equations, with the tax within bounds |
| `Costs.FairIsUnique` | internal/finance/engine.go:92-106 | those equations determine the charge |
| `Costs.ExclusivePrintsAdd` | internal/finance/engine.go:92-104 | printed total = printed amount + printed tax, exactly |
| `Costs.InclusiveRecovers` | internal/finance/engine.go:96-100 | taxing the exact base gives the amount back; tax is at most half |
| `Costs.InclusivePrintsAmount` | internal/finance/engine.go:96-104 | the printed inclusive total is the printed amount |
| `Costs.InclusivePrintsHalf` | internal/finance/engine.go:96-104 | the printed inclusive tax is at most the printed half of the amount |
| `Costs.TwelveMonths` | internal/finance/engine.go:103-104 | a twelve-month cycle prints its total as the yearly estimate |
| `Costs.AnnualNear` | internal/finance/engine.go:103-104 | any estimate is within half a unit of total * 12 / months |
| `Costs.ConvertReports` | internal/finance/engine.go:130-163 | a conversion is complete exactly in the same currency or with a positive rate observed within the maximum age and at most five minutes ahead, and otherwise says which is wanting |
| `Costs.ConvertEchoes` | internal/finance/engine.go:131-137 | the amount reported is the one read |
| `Costs.ConvertNames` | internal/finance/engine.go:135-137 | the currencies reported |
| `Costs.ConvertQuotes` | internal/finance/engine.go:156-161 | the rate and its time are reported exactly when used |
| `Budget.ConvertPrinted` | internal/finance/summary.go:230-248 | a printed amount converts exactly when its currency has a rate, so tax and estimate convert whenever the total does |
| `Budget.ConvertsByQuote` | internal/finance/summary.go:230-248 | when a summary converts an amount, and to the product with which rate |
| `Text.TrimSpaceKeeps` | internal/finance/decimal.go:18-19 | trimming removes space at the two ends and nothing else |
| `Text.CaseForgotten` | internal/finance/engine.go:53-56 | lower and upper case each forget the case a text was written in |
| `Costs.NormalizeTwice` | internal/finance/summary.go:302-304 | normalizing a currency again changes nothing |
| `Budget.ConvertersAgree` | internal/finance/engine.go:130-163 | for any amount, currency and quotes, in the context of a summary, the conversion endpoint completes exactly when the summary converts and the maximum age is positive or not needed, and prints the same amount |
| `Budget.WindowsNested` | internal/finance/summary.go:278-300 | no window twice, and the 30, 60 and 90 day windows are nested |
| `Budget.WindowsByDate` | internal/finance/summary.go:278-300 | a domain is in the 30, 60 or 90 day window exactly when it expires within that many days from now, and in the year exactly when it expires from now on and in it |
| `Budget.LineMeans` | internal/finance/summary.go:112-142 | why a domain is left out, or its fair charge and the rate applied, from its texts alone |
| `Budget.Judge` | internal/finance/summary.go:112-142 | the branch a domain takes and its converted amounts |
| `Budget.Accumulate` | internal/finance/summary.go:105-149 | after the loop every counter, total and window is the count or sum over the domains |
| `Budget.CurrentPurchaseTotal` | internal/finance/summary.go:250-276 | the purchase total and the number of purchases without a rate |
| `Budget.BudgetSummary` | internal/finance/summary.go:28-175 | every field of the summary, its completeness, and exactly the warnings that are due in the fixed order |
| `Budget.SummaryCounts` | internal/finance/summary.go:105-149 | every domain counted once; known plus unknown within each window's domains; nested counts |
| `Budget.CountedOnce` | internal/finance/summary.go:112-149 | in every window the five outcomes partition the domains |
| `Budget.NestedWindows` | internal/finance/summary.go:143-148 | window counts and totals grow with the window and stay within the overall ones |
| `Budget.SummaryNested` | internal/finance/summary.go:160-167 | so do the printed totals |
| `Budget.SummaryNear` | internal/finance/summary.go:105-162 | each reported total is within half a unit times (1 + the rates applied) of exact arithmetic |
| `Budget.WindowNear` | internal/finance/summary.go:163-167 | the same for every window |
| `Budget.PurchasesNear` | internal/finance/summary.go:151-159 | the printed purchase total is within half a unit of exact arithmetic |
| `Budget.LinesValid` | internal/finance/summary.go:105-149 | the hypothesis of the laws above holds for any list of domains |
| `HistoryWindow.Aggregate.Calculate` | internal/monitor/read.go:326-357 | each state's total is the number of instants at which it was in force, by the entries read, and by the whole history when the limit is not exceeded; all time is accounted for; coverage and uptime are the shares to the nearest four decimals |
| `HistoryWindow.VisibleIsEnough` | internal/monitor/read.go:295-302 | the query's limit loses nothing unless more entries lie in the window |
| `HistoryWindow.Aggregate.AccumulateState` | internal/monitor/read.go:381-393 | one stretch is added to exactly one state, and nothing for an empty stretch |
| `HistoryWindow.Steady` | internal/monitor/read.go:338-346 | between two availability entries the earlier one is in force |
| `HistoryWindow.Conserved` | internal/monitor/read.go:347-353 | active, degraded, unavailable and other time add up to the window |
| `HistoryWindow.Adjacent` | internal/monitor/read.go:338-347 | adjacent windows add up |
| `HistoryWindow.PercentageBounds` | internal/monitor/read.go:350-357 | a rounded share of a whole stays within 0..100 |
| `HistoryWindow.PercentageIsShare` | internal/monitor/read.go:395-398 | a percentage is the share of the whole to the nearest of four decimals |
| `Redirects.CheckAttempt` | internal/httpcheck/checker.go:116-198 | for any server: bounded hops and requests, a contiguous chain of recorded hops, no target twice, no http after https, and why the walk ended |
| `Redirects.Redirect` | internal/httpcheck/checker.go:137-177 | one redirect is recorded, and followed unless malformed, a downgrade or a repeat |
| `Redirects.Contiguous` | internal/httpcheck/checker.go:145-176 | the target of a hop is the source of the next, and only the last hop can carry an error |
| `Redirects.FinalIsClean` | internal/httpcheck/checker.go:179-197 | a final status means every hop was followed without error |
| `Redirects.ResolveRedirect` | internal/httpcheck/checker.go:292-312 | exactly which targets are accepted: an allowed scheme, a host and no credentials; an empty path becomes "/" |
| `Redirects.ClassifyStatus` | internal/httpcheck/checker.go:343-354 | exactly which statuses are client errors, server errors and retried |
| `Redirects.CanonicalIff` | internal/httpcheck/checker.go:381-393 | two targets have one canonical form if and only if scheme and host agree without regard to case, the port in use, the path with an empty one read as "/", the query and the credentials |
| `Redirects.CanonicalTwice` | internal/httpcheck/checker.go:381-393 | canonical forms are stable |
| `SheetPreview.ParseRows` | internal/sheets/model.go:137-178 | every row is as specified: numbered, read, and set aside if and only if another sound row names its domain |
| `SheetPreview.IsolateDuplicates` | internal/sheets/model.go:162-177 | the in-place marking, in any order of the domains, marks exactly the duplicated rows once |
| `SheetPreview.ParsedDistinct` | internal/sheets/model.go:162-177 | valid rows name distinct domains |
| `SheetPreview.Plan` | internal/sheets/service.go:156-176 | the action of each row and the set of domains seen |
| `SheetPreview.SheetDiff` | internal/sheets/service.go:289-309 | exactly the fields that differ, with both values; none if and only if row and inventory agree |
| `SheetPreview.FindMissing` | internal/sheets/service.go:177-189 | exactly the tracked domains that were not seen, once each |
| `SheetPreview.CountActions` | internal/sheets/service.go:311-327 | each count is exact and they sum to the rows |
| `SheetPreview.Preview` | internal/sheets/service.go:136-208 | the whole preview |
| `SheetPreview.PreviewDistinct` | internal/sheets/service.go:156-189 | all valid rows, missing ones included, name distinct domains |
| `SheetPreview.PreviewActions` | internal/sheets/service.go:156-189 | what each action means |
| `SheetPreview.ListedTwiceIsMissing` | internal/sheets/service.go:178-188 | a tracked domain listed twice is reported missing |
| `SheetApply.Store.UpsertCost` | internal/sheets/apply.go:245-256 | the price in effect ends and the new one starts today, if and only if the schema accepts both writes |
| `SheetApply.Store.WritePrices` | internal/sheets/apply.go:224-234 | purchase and renewal price together, or neither |
| `SheetApply.RepriceKeeps` | internal/sheets/apply.go:245-256 | no price is lost or altered, at most one of a kind stays in effect, and none ends before it starts |
| `SheetApply.RepriceWrites` | internal/sheets/apply.go:245-256 | each price the row states is the one in effect of its kind, with its amount, currency and tax, for twelve months from today; the price it replaces ended yesterday or, if it began today, today; the others are as they were |
| `SheetApply.Store.ModifyRow` | internal/sheets/apply.go:160-208 | every field of the domain from the row, or kept where it is overridden or archived; its schedule; its prices |
| `SheetApply.Store.AddRow` | internal/sheets/apply.go:118-158 | insert, or modify when the domain exists by now; every field from the row |
| `SheetApply.Store.MissingRowOf` | internal/sheets/apply.go:237-243 | a missing domain loses its schedule, and its monitoring when its source type matches; nothing else changes |
| `SheetApply.Store.ApplyAll` | internal/sheets/apply.go:63-100 | the loop is the fold of the rows, counts exactly the valid ones and stops at the first failure |
| `SheetApply.Store.Apply` | internal/sheets/apply.go:16-116 | everything or nothing, exactly when it is applied, and the answer in every case, also for a key another import has used |
| `SheetApply.AppliedOnce` | internal/sheets/apply.go:31-41 | after a request that applied an import, no sequence of later requests applies it again or changes it: the same key is acknowledged, any other is a conflict, and requests for it alone change nothing |
| `SheetApply.OneImportPerKey` | migrations/00005_asset_intelligence.sql:58-59 | one key applies at most one import, under any sequence of requests |
| `SheetApply.ApplyRespects` | internal/sheets/apply.go:160-200 | no import removes, renames or un-archives a domain, changes an overridden field or loses a price |
| `SheetApply.ApplyKeepsInvariants` | internal/sheets/apply.go:204-208 | names stay unique, only active, monitored domains have an enabled schedule, and prices stay sound |
| `SheetApply.ApplyRealises` | internal/sheets/apply.go:63-100 | every valid row's domain ends field by field as the row says, from the state before the import, with its schedule and prices, whatever the other rows do |
| `SheetApply.Untouched` | internal/sheets/apply.go:63-100 | a domain no row touches keeps everything |
| `SheetApply.PreviewFits` | internal/sheets/service.go:156-189 | the rows of a preview touch distinct domains, which is what the two theorems above ask, unless a domain was renamed since |
| `SheetApply.ApplySucceedsIff` | internal/sheets/apply.go:63-100 | an import with unused identifiers is applied if and only if the schema accepts every row it writes, each judged by the tables before the import |
| `SheetApply.ApplySucceeds` | internal/sheets/apply.go:210-256 | while the date does not run backwards: if and only if every written row has a registrar name within the limit and, for its prices, a known currency and numbers that fit |
| `SheetApply.UnknownCurrencyAborts` | migrations/00001_foundation.sql:89-91 | a valid preview of one domain priced in euro, which apply refuses |

## Left out

- HTTP handlers, middleware, user interface, configuration loading and the commands: plumbing.
- SQL and JSON text, isolation levels and Redis internals, including the trimming of the stream at its maximum length: tables are maps and the stream is a sequence that keeps every message.
- Cryptography and tokens: a submission carries the first of its size, signature, identity and clock checks that failed, if any.
- DNS, TLS and HTTP transport, URL parsing and reference resolution: the server and the resolver are arbitrary functions.
- The per-dimension classifiers, the ISP classifier and the recommendation rules: flat decision tables; their results are parameters.
- RDAP, Drive, PDF rendering, reports, audit entries and evidence rows: I/O beside the modelled state.
- The consumer's endless read loop, cursor and worker goroutines: modelled as deliver, acknowledge and drop actions in any order, because an unbounded loop has no final state to specify.
- Acknowledged incidents, cancelled and partial runs: nothing in the modelled code produces them.
- HistoryWindow.Aggregate.Calculate: durations are integer ticks and shares are exact, so the floating-point rounding of seconds is not captured.
- Incident counts and the average response time of a history window: single aggregate queries.
- Costs.CalculateAccepts: upper and lower case are mapped for ASCII letters only.
- Redirects.CanonicalIff: canonical forms are compared as structured URLs, not as their text, and the brackets of IPv6 hosts are not modelled.
- The retry loop and the http fallback around one redirect walk, response bodies, timings and the cross-domain flag.
- Manual overrides and price selection before the budget loop, and the revocation of overrides: the loop starts from the effective costs.
- Column mapping and the normalization of single cells, storing the diff, and idempotent reuse of a preview: the preview starts from normalized rows.
- SheetApply.Store.ModifyRow: a registrar is known by its lower-case name, so which of several rows with that name is referenced, and its stored spelling, is not captured.
- SheetApply.Store.AddRow: the same holds for the registrar of a new domain.
- Provenance records and next due times written by an apply, and rejecting an import; normalized names and dates are taken to fit their columns, and sheet prices to be decimals as the preview prints them.
- Whether a second preview after an apply is empty: registrar casing and removed prices keep producing differences, so it is not in general.
