# Verified model of the HR backend

This project models the parts of the HR backend whose correctness does not show in any one function, and
proves what they promise. `dafny verify dfyconfig.toml` checks everything.

A database transaction is one atomic step. Tables are maps or sequences, ids are natural numbers, dates are the
ordinals of Python's `date`. Unique indexes, the exclusion constraint and row locks appear as guards of a step.
Code that changes rows step by step is a class whose methods assign its tables (`Desk`, `Runner`, `Service`) or a
method with its loops; each is proved to take the tables to the state a function describes, and the theorems are
about those functions over all sequences of steps.

The modules `Entitlement`, `RequestOutcomes`, `JobOutcomes` and `HrOutcomes` say what each operation answers and
stores in terms of the tables alone: the row in force, the most specific policy, the rules in their order, the fields
of what is new, and that all else stays.

- **Job protocol** (`JobRuns`, `JobInvariants`, `JobTheorems`, `JobClosing`, `JobEffects`, `JobRefinement`,
  `JobTraffic`, `PlanExample`, `JobRunner`, `JobOutcomes`, `SystemTheorems`).
  Runs are split into chunks; tasks may be lost, repeated or reordered; users cancel and retry; a scheduler
  resends. Invariants hold over all runs, the leave tables hold each successful chunk's effect exactly once beside
  whatever else happens to them, and a chunked run refines one sequential pass over the employees: in every field
  when it alone writes the tables, and in what the accrual decides while the service is in use.
- **Leave ledger** (`LeaveRules`, `LeaveAccrual`, `AccrualLaws`, `Entitlement`, `LeaveLedger`,
  `LedgerInvariants`, `LedgerTheorems`, `RequestOutcomes`, `SmallLedger`, `ExpiryExample`, `LeaveDesk`, on
  `Calendar`). Balances are stored and never recomputed; they are proved to agree with the request history whatever
  happens, and the business effect of the jobs is the same code, so the two cores compose.
- **Reports** (`LikePattern`, `ReportSql`, `ReportQuery`, `ReportMeaning`, `ReportAnswer`, `ReportAcceptance`).
  A specification is compiled to a relational statement with SQL's null logic; the statement returns exactly what
  a direct reading of the specification asks for.
- **Pagination** (`Keyset`, `Base64`, `Cursor`, `CompactJson`). Traversal by keyset cursors and the cursor text,
  base64url without padding (sections 5 and 3.2 of RFC 4648); `CompactJson` is a writer of JSON that meets what the
  cursor theorems ask of one.
- **Core HR** (`JobHistory`, `OrgTree`, `CoreHr`, `HrOutcomes`). Effective-dated job history and the tree of org units.

## Where the code gives less than one might expect

- A worker lost between the last outcome of a run, a chunk's success or a final failure, and `finalize` strands the
  run (`JobClosing.LostWorkerLeavesRunOpen`). The scheduler resends pending chunks only, and a chunk task delivered
  again finalizes only what it worked on, so resending ends a running run iff it has a pending chunk
  (`JobClosing.RunningRunsCanFinish`); a stranded run stays open, and blocks its job, for as long as nobody cancels it
  and no delivery raises an exception, after which `finalize` is called
  (`JobClosing.OnlyFailuresFreeIt`, `JobClosing.StrandedThroughout`, `JobClosing.StrandedRunIsReached`).
- An expiry run plans the employees hired by its date, and a due row can belong to somebody hired later; it then
  succeeds and leaves the row as it was (`JobRefinement.ExpiryRefinesOnePass`, `PlanExample.ExpiryMissesDueRow`).
- `update_org_unit` takes no lock: two moves checked against the same tree close a circle exactly when each moved
  unit was above the other's new parent or was that parent (`OrgTree.ConcurrentMoves`,
  `OrgTree.ConcurrentMovesCanClose`).
- `decode_cursor` lets some exceptions through, so a bad cursor is not always refused as one: exactly when the first
  item that cannot be read raises an exception it does not catch (`Cursor.UncaughtExactly`), as for an id that is a
  number (`Cursor.NonTextIdIsUncaught`).
- `available` can become negative by an expiry; it stays non-negative exactly when each expired balance has
  `entitled + adjusted >= 0` (`LedgerTheorems.AvailabilityKept`, `ExpiryExample.ExpiryCanGoNegative`).
- An active unit can end up below an inactive one by reactivation, and in no other way
  (`OrgTree.UpdateKeepsActiveParents`).
- A page whose last row has sort values of more than 384 characters of JSON hands out a cursor that the next
  call refuses (`Cursor.NextPageByText`). A report template with a name of 70 letters outside ASCII is such a row
  (`Cursor.LongNameIsRefused`).
- The docstring of `expire_carry_over` can be read as if days being applied for expired as well; the code takes
  them off first, as ADR 010 says, and the model follows the code.

## Model

| member | source | states |
|---|---|---|
| `JobRunner.Runner.StartRun` | backend/app/jobs/runner.py:59-117 | only a queued run starts; the loop gives one pending chunk per planned range, numbered from 1 in plan order; no range means success at once, a failing plan a failed run |
| `JobRunner.Runner.ExecuteChunk` | backend/app/jobs/runner.py:142-184 | works only on a pending chunk of a running run; the new leave tables, none in a dry run, and the chunk's success with its counts come together; says whether it worked |
| `JobRunner.Runner.CountChunks` | backend/app/jobs/runner.py:228-244 | the loop over the chunks gives the number per status |
| `JobRunner.Runner.Totals` | backend/app/jobs/runner.py:246-255 | the loop adds up the outputs of exactly the successful chunks |
| `JobRunner.Runner.Finalize` | backend/app/jobs/runner.py:219-270 | counters always follow the chunks; with nothing pending the run ends as success, partial or failed by what they say |
| `JobRunner.Runner.CancelRun` | backend/app/services/jobs.py:245-268 | an active run is cancelled with its pending chunks; other runs refuse |
| `JobRunner.Runner.RetryRun` | backend/app/services/jobs.py:271-320 | a failed or partial run gets exactly its failed chunks back as pending with no attempts and tasks for them, or, if it never had chunks, is queued again |
| `JobRunner.Runner.CreateRun` | backend/app/services/jobs.py:90-149 | an unknown job and unreadable parameters refuse, a run under a known non-empty key is given back, a date in the future, an active run of the job or a used key refuses, else one queued run and its start task are new; the whole new state is the one of the protocol step |
| `JobRunner.Runner.RecordFailure` | backend/app/jobs/runner.py:187-216 | one attempt more; the last one the job allows makes the chunk failed, earlier ones say to try again in 10 seconds, doubled per attempt |
| `JobRunner.Runner.RunOneChunk` | backend/app/jobs/runner.py:127-139 | after a failure always, else only if the chunk was worked on, the run is finalized; a time to try again comes only after a failure |
| `JobRunner.Runner.FireSchedule` | backend/app/jobs/scheduler.py:91-128 | a due active schedule moves to its next time, notes this one, and creates a run unless its job is unknown or the run is refused; the report says which |
| `JobRunner.Runner.Requeue` | backend/app/jobs/scheduler.py:131-140 | a start task again for a queued run, and only then a report of it |
| `JobRunner.Runner.Resume` | backend/app/jobs/scheduler.py:143-162 | tasks again for exactly the pending chunks of a running run, and only then a report of it |
| `JobRunner.Runner.Tick` | backend/app/jobs/scheduler.py:53-88 | a tick is its work items as protocol steps one after the other; it reports the runs created, the schedules refused and the runs sent again, in order |
| `JobOutcomes.CreateAnswers` | backend/app/services/jobs.py:90-149 | the refusals in their order, the run under a known key, or one queued run of the tenant, job, dryness and key asked for, for the date given or else today, with its start task sent and all else as it was |
| `JobOutcomes.StartAnswers` | backend/app/jobs/runner.py:59-117 | a queued run fails with its plan or gets a waiting chunk for every 500 of the employees hired by its date, in the order of their ids and numbered from 1, with exactly their tasks sent; without employees it has succeeded |
| `JobOutcomes.ExecuteAnswers` | backend/app/jobs/runner.py:142-184 | a waiting chunk of a running run is done one try later with the counts of its range's pass; the tables take that pass unless it is a dry run |
| `JobOutcomes.FailureAnswers` | backend/app/jobs/runner.py:187-216 | a failed try is counted and noted, and the third makes the chunk failed |
| `JobOutcomes.FinalizeAnswers` | backend/app/jobs/runner.py:219-270 | the counters are the numbers of chunks done and failed; with none waiting the run ends by them |
| `JobOutcomes.CancelAnswers` | backend/app/services/jobs.py:245-268 | an active run is cancelled with exactly its waiting chunks, other runs refuse |
| `JobOutcomes.RetryAnswers` | backend/app/services/jobs.py:271-320 | failed chunks wait as new and exactly the waiting chunks are sent, or a run without chunks is queued and started again; busy jobs and other runs refuse |
| `JobOutcomes.ResendAnswers` | backend/app/jobs/scheduler.py:131-162 | exactly the start of a queued run, or the waiting chunks of a running one, are sent again |
| `JobOutcomes.FireAnswers` | backend/app/jobs/scheduler.py:91-128 | a due schedule moves on and notes the time, and its job is queued as a real run without a key for its date or today, unless the job is unknown or busy, or the date unreadable or in the future |
| `JobOutcomes.DelaysDouble` | backend/app/jobs/runner.py:199-216 | 10 seconds after the first failure, twice as long after each next, none after the last |
| `JobOutcomes.ItemTells` | backend/app/jobs/scheduler.py:53-128 | what a work item reports is what it did: the run that is new, the schedule moved on without one, the run sent again |
| `JobOutcomes.TickTells` | backend/app/jobs/scheduler.py:53-88 | a tick reports a run as created iff it was not there before and is after |
| `JobInvariants.StepKeeps` | backend/app/jobs/runner.py:59-270 | every step of users, workers, scheduler and the leave service keeps the invariant of runs, chunks, tasks and ledgers |
| `JobInvariants.AlwaysInv` | backend/app/jobs/runner.py:59-270 | the invariant holds after any actions, with tasks lost, repeated or reordered |
| `JobInvariants.RetryHasWork` | backend/app/services/jobs.py:276-298 | a retry yields a queued run without chunks or a running run with a pending chunk |
| `JobTheorems.RunsAreKept` | backend/app/jobs/runner.py:146-184 | chunks are planned once, a successful chunk never changes again, and an ended run changes only by a retry of a failed or partial one |
| `JobTheorems.OneActiveRun` | backend/app/services/jobs.py:122-140 | no tenant ever has two active runs of one job, nor two runs under one idempotency key |
| `JobTheorems.OnlyCommitsTouchData` | backend/app/jobs/runner.py:173-184 | without a committed chunk no step of the job system changes any tenant's leave data |
| `JobTheorems.SchedulesFireOnce` | backend/app/jobs/scheduler.py:104-128 | a fired schedule is not due again at the same time and starts nothing beside an active run |
| `JobTheorems.CreateAcceptsExactly` | backend/app/services/jobs.py:102-149 | a run is created iff its job and parameters are known, its date is not in the future, no active run does the job and no run has the key; a known key gives its run instead |
| `JobTheorems.AttemptsRunOut` | backend/app/jobs/runner.py:179-216 | the attempts left over pending chunks strictly drop with every recorded outcome |
| `JobTheorems.OnlyRetryRefills` | backend/app/services/jobs.py:276-298 | once a run has chunks no action but a retry of it raises the attempts left |
| `JobTheorems.OutcomesAreBounded` | backend/app/jobs/runner.py:179-216 | between retries at most max_attempts outcomes per chunk are recorded over any actions: a run cannot be kept busy for ever |
| `JobClosing.RunningRunsCanFinish` | backend/app/jobs/scheduler.py:143-162 | after the resend and one good delivery of each chunk a running run has ended iff it had a pending chunk, and with success iff besides no chunk had failed for good |
| `JobClosing.LostWorkerLeavesRunOpen` | backend/app/jobs/runner.py:131-139 | a worker lost after the last pending chunk's commit strands the run, running with nothing pending; one lost after its recorded failure does iff the attempts were used up |
| `JobClosing.OnlyFailuresFreeIt` | backend/app/jobs/runner.py:127-139 | for a stranded run the resend and every good delivery do nothing, while a delivery that raises finalizes and closes it |
| `JobClosing.StrandedStays` | backend/app/jobs/runner.py:219-270 | a stranded run stays so under an action iff it is neither a finalize nor a cancel of that run |
| `JobClosing.StrandedThroughout` | backend/app/jobs/runner.py:219-270 | over any actions a run is stranded all the while iff it is neither finalized nor cancelled among them |
| `JobClosing.StrandedRunIsReached` | backend/app/jobs/runner.py:131-139 | a hire, an accrual run of one chunk, and its commit by a worker that is then lost reach a stranded run |
| `JobEffects.TraceExplainsLedger` | backend/app/jobs/runner.py:142-184 | after any actions, with leave traffic beside the runs, a tenant's leave tables are what its committed real chunks and leave events, in the order they came, make of empty ones |
| `JobEffects.ExactlyOnce` | backend/app/jobs/runner.py:142-184 | in every reachable state that history holds a chunk of the tenant's runs once if the chunk is successful in a real run, and else never |
| `JobEffects.EntriesAreRight` | backend/app/jobs/runner.py:160-183 | each chunk in it is the pass over the chunk's own range for the run's date on the tables of that moment, and the chunk's stored output counts what it did |
| `JobRefinement.SlicesAt` | backend/app/jobs/leave.py:45-48 | the i-th range runs from the id at 500 i to the last of its at most 500 ids |
| `JobRefinement.PlanPartitions` | backend/app/jobs/leave.py:34-48 | the ranges of a plan are in order, disjoint, of 1 to 500 employees, and hold every employee hired by the date |
| `JobRefinement.OutputsAddUp` | backend/app/jobs/runner.py:246-255 | the totals of the successful chunks are the counts of all their rows together |
| `JobRefinement.ChunkOnTop` | backend/app/services/leave_accrual.py:110-187 | a chunk run after others with disjoint ranges changes and counts what it would have done alone |
| `JobRefinement.AlwaysClean` | backend/app/jobs/runner.py:59-270 | throughout a run that alone writes the tenant's leave tables, its plan, outputs and store are those of one pass over the rows done |
| `JobRefinement.RunIsOnePassSoFar` | backend/app/jobs/runner.py:59-270 | the store is the one at the start with one pass over the rows of the successful chunks, through any order, failure, cancel and retry; the final output counts that pass |
| `JobRefinement.AccrualRefinesOnePass` | backend/app/services/leave_accrual.py:84-202 | a real accrual run that succeeds leaves exactly the balances and counts of one sequential pass over all employees active at the date |
| `JobRefinement.ExpiryRefinesOnePass` | backend/app/services/leave_accrual.py:205-255 | an expiry run that succeeds equals one sequential pass iff every due row belongs to an employee inside a planned range |
| `JobRefinement.DryRunFidelity` | backend/app/jobs/runner.py:173-178 | a dry run that succeeds changed nothing and counted what a real run from the same store counts |
| `JobTraffic.EventSpares` | backend/app/services/leave_requests.py:469-695 | submissions, decisions, cancellations, corrections and page views that are not about last year keep the configuration, last year's rows and the accrual part of this year's, missing rows counted as the ones that would be created |
| `JobTraffic.ExpirySpares` | backend/app/services/leave_accrual.py:205-255 | so does a chunk of an expiry run of any year but the last |
| `JobTraffic.AlwaysTracks` | backend/app/services/leave_accrual.py:84-202 | with such traffic between the chunks of an accrual run each row's accrual part is at every moment what one pass from the start would make of it if its chunk is done, and else as at the start |
| `JobTraffic.AccrualUnderTraffic` | backend/app/services/leave_accrual.py:84-202 | an accrual run that succeeds amid such traffic has made every row one pass would make, and the entitlement, carry-over and due date of all rows of the year are those of that pass |
| `PlanExample.ExpiryMissesDueRow` | backend/app/jobs/leave.py:34-48 | a run of ten actions from empty tables in which an expiry run succeeds without a chunk and its due row, of an employee hired after its date, stays as it was |
| `SystemTheorems.RunsTellTruth` | backend/app/jobs/runner.py:219-262 | in every reachable state the status and counters of a run are the ones its chunks dictate: counters never above the truth while running, exact at the end, no pending chunk in an ended or cancelled run, failed with total 0 iff planning failed |
| `SystemTheorems.BalancesAreSound` | backend/app/services/leave_requests.py:526-572 | in every reachable state of jobs and leave together each balance equals the sums over the request history, shows at most 262 days used and pending, and has expired no more than was carried over |
| `LeaveAccrual.CarryOver` | backend/app/services/leave_accrual.py:164-184 | last year's positive remainder up to the policy's limit, with its due date, once; says whether there was any |
| `LeaveAccrual.AccrueRow` | backend/app/services/leave_accrual.py:123-187 | the row's new value and exactly the kinds of change it reports |
| `LeaveAccrual.Accrue` | backend/app/services/leave_accrual.py:84-202 | the nested loops apply the change to every active employee of the range and every active type with a balance, each computed from the tables before, and count the changes |
| `LeaveAccrual.ExpireCarryOver` | backend/app/services/leave_accrual.py:205-255 | the loop closes every due row of the range and counts expired and fully used ones |
| `AccrualLaws.RerunChangesNothing` | backend/app/services/leave_accrual.py:123-187 | running a job again for the same date and range changes no balance and reports nothing |
| `AccrualLaws.AccrualOverAYear` | backend/app/services/leave_accrual.py:157-184 | after runs at any dates of a year a row has the greatest of its first entitlement and the targets at those dates, and one carry-over |
| `AccrualLaws.AccrualOrderFree` | backend/app/services/leave_accrual.py:157-184 | only the set of the run dates of a year matters, not their order or number |
| `AccrualLaws.LazyCreationMakesNoDifference` | backend/app/services/leave_balances.py:36-108 | a balance created early by a page view or a request ends as if the accrual had created it |
| `AccrualLaws.EntitlementIsBase` | backend/app/services/leave_balances.py:36-49 | the entitlement of a lazily created balance is the accrual's start-of-year policy |
| `AccrualLaws.ExpiryCapsAvailable` | backend/app/services/leave_accrual.py:238-239 | the first expiry leaves exactly min(available, entitled + adjusted) |
| `AccrualLaws.ExpiryWindow` | backend/app/services/leave_accrual.py:226-232 | a row expires only from its due date to 31 December of its year, and only for a policy of 1 to 11 months |
| `Entitlement.InForceIs` | backend/app/services/employees.py:74-87 | the row of the as-of query is the one effective by the date that none comes after, by date and then number |
| `Entitlement.InEffectIs` | backend/app/services/leave_accrual.py:24-42 | the policy the code picks is the most specific for the grade in force on the date, in capitals, whose months of service have passed |
| `Entitlement.OneInEffect` | backend/app/models/leave.py:90-97 | there is always exactly one such policy, or exactly none |
| `Entitlement.CreatedIsFresh` | backend/app/services/leave_balances.py:36-108 | a row created on the way is entitled to what that policy grants on the first day of the year, or of hire, and has nothing else on it |
| `Entitlement.DueDateIs` | backend/app/rules/leave.py:58-62 | a carry-over is due on the first of the month that many months after January, for any number of months; never for none |
| `Entitlement.AccrualMeansIt` | backend/app/services/leave_accrual.py:84-202 | an accrual raises each row of an active employee and active type to what is granted on its date, from what was there or is granted on the first day, and carries last year's remainder over once, up to the limit, with its due date; all else stays |
| `Entitlement.ExpiryMeansIt` | backend/app/services/leave_accrual.py:205-255 | an expiry closes exactly the open rows of the year that are due, and what of the carried days is neither used nor asked for expires; all else stays |
| `Entitlement.CountsTellChanges` | backend/app/services/leave_accrual.py:123-187 | the counts of a chunk are the numbers of rows it created, raised, carried over to, let expire, or closed with nothing to expire |
| `Calendar.YmdReadsBack` | backend/app/rules/leave.py:34-39 | year, month and day of a date are the ones it was built from, for every valid date |
| `Calendar.WeekdayGoesOn` | backend/app/rules/leave.py:70 | the weekday goes on day by day, anchored at a known Monday |
| `Calendar.YearHasAtMost262Weekdays` | backend/app/rules/leave.py:65-73 | no year has more than 262 weekdays |
| `LeaveRules.WorkingDays` | backend/app/rules/leave.py:65-73 | the loop counts exactly the weekdays of the range that are no holidays |
| `LeaveRules.WorkingDaysAdd` | backend/app/rules/leave.py:65-73 | splitting a range adds its working days up |
| `LeaveRules.ServiceMonthsCountsFullMonths` | backend/app/rules/leave.py:34-39 | m months have passed iff the day of hire has come round m months later |
| `LeaveRules.PickPolicyIsMostSpecific` | backend/app/rules/leave.py:42-55 | the choice applies, is one for the grade if any such applies, and has the most months of service among its like; there is none iff none applies |
| `LeaveRules.PickPolicyOrderFree` | backend/app/models/leave.py:90-97 | under the unique index the choice does not depend on the order of the policies |
| `LeaveRules.PickPolicyFromType` | backend/app/services/leave_balances.py:27-33 | loading one type's policies or all gives the same choice |
| `LeaveRules.CarryOverFallsDueInYear` | backend/app/rules/leave.py:58-62 | a carry-over is due on a date of its own year iff its policy grants 1 to 11 months and the first of the next month has come |
| `LeaveRules.OverlapTestExact` | backend/app/services/leave_requests.py:61-71 | the extra lower bound on the start changes no answer iff the stored range spans at most 184 days |
| `LeaveDesk.Desk.EnsureBalance` | backend/app/services/leave_balances.py:52-108 | the row is there afterwards, unchanged or new, iff it was or the employee exists |
| `LeaveDesk.Desk.Assess` | backend/app/services/leave_requests.py:124-186 | days and violations in their order, and the balance row in place |
| `LeaveDesk.Desk.ChainOf` | backend/app/services/leave_requests.py:452-466 | the loop gives the direct supervisor and then each next one's |
| `LeaveDesk.Desk.Submit` | backend/app/services/leave_requests.py:469-554 | result and new tables of a submission |
| `LeaveDesk.Desk.ReleaseBalance` | backend/app/services/leave_requests.py:557-572 | moves the days on the balance of a type that has one, or fails and changes nothing |
| `LeaveDesk.Desk.Decide` | backend/app/services/leave_requests.py:587-655 | result and new tables of a decision |
| `LeaveDesk.Desk.Cancel` | backend/app/services/leave_requests.py:658-695 | result and new tables of a cancellation |
| `LeaveDesk.Desk.AdjustBalance` | backend/app/services/leave_balances.py:160-190 | result and new tables of a correction |
| `RequestOutcomes.EvaluateFindsAll` | backend/app/services/leave_requests.py:124-186 | the checks report exactly the rules that are broken, in their order, with the working days of a good range and the balance it needs in place |
| `RequestOutcomes.SubmitAnswersNew` | backend/app/services/leave_requests.py:469-554 | no balance to be had, the first rule broken, an empty key used again, or a new request: for what was asked, for the working days of its dates, pending on level 1, every level open for the supervisor of the one below, and its days booked as pending |
| `RequestOutcomes.SubmitAnswersOld` | backend/app/services/leave_requests.py:469-495 | nobody asking, a key that brings its first request back, or a type that is not there; nothing changes |
| `RequestOutcomes.DecideAnswers` | backend/app/services/leave_requests.py:587-655 | a decision counts iff the request is pending and HR or the approver of its level makes it, but not the person asking; then the level carries it, the request moves on, is approved with its days used, or is rejected with its days back |
| `RequestOutcomes.CancelAnswers` | backend/app/services/leave_requests.py:658-695 | a cancellation counts iff HR or the owner makes it, of a pending request or an approved one that begins after today; its days come back and what is open is skipped |
| `RequestOutcomes.AdjustAnswers` | backend/app/services/leave_balances.py:160-190 | a correction counts iff the type has balances, there is a row or an employee to have one, and nothing below zero is left; only that field changes |
| `RequestOutcomes.ViewAnswers` | backend/app/services/leave_balances.py:52-108 | a page view puts the row in place and changes nothing else |
| `LedgerInvariants.AlwaysInv` | backend/app/services/leave_requests.py:502-638 | after any events balances agree with the request history, active ranges are disjoint, every ladder is in order and decided by the right people, histories are well formed and carry-over is sound |
| `LedgerInvariants.DecideKeeps` | backend/app/services/leave_requests.py:587-638 | a decision keeps all of that |
| `LedgerInvariants.CancelKeeps` | backend/app/services/leave_requests.py:658-683 | a cancellation keeps all of that |
| `LedgerInvariants.BookedNonNegative` | backend/app/models/leave.py:143 | used and pending are never negative |
| `LedgerTheorems.UsageFitsTheYear` | backend/app/services/leave_requests.py:144-170 | pending and approved days of an employee in a year, over all types, fit the year's weekdays, however the holidays changed in between |
| `LedgerTheorems.BalanceFitsTheYear` | backend/app/services/leave_requests.py:526-527 | used + pending <= 262 |
| `LedgerTheorems.OverlapQueryExact` | backend/app/services/leave_requests.py:160-170 | the overlap query answers plain intersection with an active request |
| `LedgerTheorems.SubmitAcceptsExactly` | backend/app/services/leave_requests.py:477-524 | a submission succeeds iff the request satisfies every rule in plain terms, or its key brings back an earlier one |
| `LedgerTheorems.ConstraintNeverFires` | backend/app/services/leave_requests.py:518-524 | one submission at a time meets a database conflict only for a reused empty key |
| `LedgerTheorems.AvailabilityKept` | backend/app/services/leave_accrual.py:238-239 | an event keeps every available >= 0 iff each carry-over it expires has entitled + adjusted >= 0 |
| `LedgerTheorems.AvailableOverRuns` | backend/app/services/leave_balances.py:172-177 | available stays >= 0 over every run whose expiries are safe |
| `LedgerTheorems.CarryOverOnce` | backend/app/services/leave_accrual.py:164-184 | carry-over is applied once and expires once, the entitlement only grows, and nothing but the jobs touches them |
| `LedgerTheorems.RequestsAreKept` | backend/app/services/leave_requests.py:587-683 | rejected and cancelled are final, approved can only be cancelled, decisions and the number of levels stay |
| `LedgerTheorems.SubmitThenCancel` | backend/app/services/leave_requests.py:677-683 | cancelling a request just submitted gives back everything it took |
| `ExpiryExample.ExpiryCanGoNegative` | backend/app/services/leave_accrual.py:238-239 | a run of eight events of the service ends with -3 days available: carried over 6, corrected by -3, expired 6 |
| `JobHistory.JobAsOfIsLatest` | backend/app/services/employees.py:74-87 | the row in force is the last by date and sequence among those effective by then |
| `JobHistory.AddJobKeepsHistory` | backend/app/services/employees.py:360-412 | an accepted row keeps the history in strict order, starting with the hire, with rehires exactly after terminations |
| `JobHistory.AddJobAcceptsExactly` | backend/app/rules/core_hr.py:19-58 | a row is accepted iff it is no hire, not before the last row, a rehire exactly after a termination, in an active unit and under an existing other supervisor |
| `JobHistory.AddJobAsOf` | backend/app/services/employees.py:360-412 | a row effective on e changes nothing before e and rules from e on |
| `JobHistory.TerminationsAlternate` | backend/app/rules/core_hr.py:40-51 | between two terminations there is a rehire and the other way round |
| `JobHistory.StatusFollowsActions` | backend/app/rules/core_hr.py:13-16 | an employee is active iff hired by then and the last action was no termination |
| `JobHistory.PrefilterChangesNothing` | backend/app/services/employees.py:90-115 | the candidate prefilter never changes the result |
| `OrgTree.Ancestors` | backend/app/services/org_units.py:76-88 | ends on every parent graph, also a cyclic one, with exactly the units reachable by parent links, each once and in order |
| `OrgTree.ForestHasNoCycle` | backend/app/rules/core_hr.py:61-67 | where links end, no unit is above itself |
| `OrgTree.CycleCheckExact` | backend/app/rules/core_hr.py:61-67 | a move keeps the forest iff the unit is not among the new parent and its ancestors |
| `OrgTree.CreateKeepsTree` | backend/app/services/org_units.py:91-116 | a create keeps parents, distinct codes and the forest |
| `OrgTree.UpdateKeepsTree` | backend/app/services/org_units.py:131-171 | an update keeps parents, distinct codes and the forest |
| `OrgTree.CreateKeepsActiveParents` | backend/app/services/org_units.py:104-110 | a create keeps active units under active parents |
| `OrgTree.UpdateKeepsActiveParents` | backend/app/services/org_units.py:155-171 | an update keeps active units under active parents iff it does not reactivate a unit below an inactive one |
| `OrgTree.ReactivationBelowInactiveHappens` | backend/app/services/org_units.py:155-171 | such a reactivation is accepted |
| `OrgTree.ConcurrentMoves` | backend/app/services/org_units.py:131-171 | two moves accepted against the same tree and both written keep the forest iff not each unit was among the other's new parent and its ancestors |
| `OrgTree.ConcurrentMovesCanClose` | backend/app/services/org_units.py:131-171 | two top units, each moved below the other by an accepted update of the same tree, end in a circle |
| `CoreHr.AlwaysHrOk` | backend/app/services/org_units.py:91-171 | after any serial sequence of creates, moves, hires and job changes the units are a forest and every history and reference is sound, with no number or address used twice |
| `CoreHr.Service.CreateUnit` | backend/app/services/org_units.py:91-116 | the new units or the first error |
| `CoreHr.Service.UpdateUnit` | backend/app/services/org_units.py:131-171 | the fields in their order, each check when its turn comes; an error leaves the row as it was |
| `CoreHr.Service.AddJob` | backend/app/services/employees.py:345-412 | the history with the new row after the rows there are, or the first error |
| `CoreHr.Service.CreateEmployee` | backend/app/services/employees.py:198-257 | the employee with number, name and address of its own and the hire row, or the first error |
| `CoreHr.Service.UpdateEmployee` | backend/app/services/employees.py:277-298 | address and name as asked, with the address nobody else's, or the first error |
| `HrOutcomes.ForestIffNoCircle` | backend/app/rules/core_hr.py:61-67 | the links of all units end iff no path of parents comes back to where it began |
| `HrOutcomes.CreateUnitAnswers` | backend/app/services/org_units.py:91-116 | the refusals in their order, or the unit as asked for and active |
| `HrOutcomes.UpdateUnitAnswers` | backend/app/services/org_units.py:131-171 | the refusals in their order, a move exactly if it would close a circle of parents; else the fields named are set and nothing else |
| `HrOutcomes.HireAnswers` | backend/app/services/employees.py:198-257 | the refusals in their order, or the employee with the one row of the hire and the card |
| `HrOutcomes.CardAnswers` | backend/app/services/employees.py:277-298 | an address somebody else has is refused; else the fields named are set |
| `HrOutcomes.AddJobAnswers` | backend/app/services/employees.py:345-412 | on a sound history the refusals depend on the last row alone, in their order; the new row takes what is not given from it and comes after it on the same day |
| `LikePattern.EscapeLikeIsCharwise` | backend/app/reports/query.py:140-141 | the three replacements give every special character exactly one escape |
| `LikePattern.StartsWithIsExact` | backend/app/reports/query.py:189-190 | the pattern accepts exactly the texts that start with the value, up to case folding |
| `LikePattern.ContainsIsExact` | backend/app/reports/query.py:187-188 | the pattern accepts exactly the texts the value occurs in, up to case folding |
| `ReportQuery.CollectFilters` | backend/app/reports/query.py:219-226 | the filter loop gives the conditions in order, or the first error, and the columns they are about |
| `ReportQuery.SelectAndSort` | backend/app/reports/query.py:235-285 | the loops over aggregates and sorts give the selection and the order, or the first error |
| `ReportQuery.Compile` | backend/app/reports/query.py:204-287 | the loops give the compiled statement, result columns and sources, or the first error |
| `ReportMeaning.FilterMeansIt` | backend/app/reports/query.py:154-201 | a filter's condition is true, in three-valued logic, of exactly the rows the filter means |
| `ReportMeaning.PeriodMeansIt` | backend/app/reports/query.py:228-233 | the default period keeps exactly the rows of the current year |
| `ReportMeaning.WhereIsWanted` | backend/app/reports/query.py:218-233 | the conditions keep the tenant's rows that satisfy every filter, of this year iff the period column is unfiltered, in order |
| `ReportAnswer.AggregateMeansIt` | backend/app/reports/query.py:242-256 | each aggregate expression has the value the aggregate means |
| `ReportAnswer.SortedMeansIt` | backend/app/reports/query.py:273-285 | the ORDER BY of the statement is the order asked for: the first sort that tells two rows apart decides, null last in either direction |
| `ReportAnswer.CompilerPreservesMeaning` | backend/app/reports/query.py:204-287 | for every accepted specification and view a table is a result of the statement iff it is an answer to the specification: one row per wanted row, or per combination of the chosen columns, with the right aggregates, sorted as asked with nulls last |
| `ReportAnswer.ResultsAreAligned` | backend/app/reports/query.py:213-271 | items, result columns and sources go side by side under distinct keys |
| `ReportAcceptance.AcceptsExactly` | backend/app/reports/query.py:204-287 | a specification is accepted iff it is well formed |
| `ReportAcceptance.TablesAgree` | backend/app/reports/query.py:39-67 | the table of operators and functions by column type, read by operator and function |
| `ReportAcceptance.RejectsAtFirst` | backend/app/reports/query.py:204-287 | a specification that is not well formed gets the error of the first thing wrong: dataset, columns, filters in order, period, aggregates in order, sorts |
| `Keyset.RowOrderOrders` | backend/app/core/pagination.py:102-109 | several sort columns in one direction order the rows |
| `Keyset.PageIs` | backend/app/core/pagination.py:129-153 | a page holds the first rows after the cursor, and there is a next cursor, the last of them, iff rows are left |
| `Keyset.TraverseIsComplete` | backend/app/core/pagination.py:88-109 | following the cursors ends and yields every row beyond the first cursor once, in order |
| `Keyset.VisitIsFair` | backend/app/core/pagination.py:129-153 | while rows come and go between pages nothing is seen twice, and every row there throughout has been seen at the end |
| `Keyset.RowOrderMeansIt` | backend/app/core/pagination.py:102-109 | the first sort column that differs decides, the smaller value first or, descending, the greater |
| `Base64.RoundTrip` | backend/app/core/pagination.py:69-79 | bytes come back from base64url text without padding, which has 4 characters for 3 bytes, rounded up |
| `Cursor.TagIsExact` | backend/app/core/pagination.py:34-52 | the tag says the value's own class, bool before int and datetime before date |
| `Cursor.CursorRoundTrip` | backend/app/core/pagination.py:69-85 | a cursor reads back for its number of columns iff its JSON has at most 384 characters, that is, its text at most 512 |
| `Cursor.NextPageByText` | backend/app/core/pagination.py:143-153 | the cursor a page hands out leads to the next page iff its values' JSON has at most 384 characters, and is refused else |
| `Cursor.NameCursor` | backend/app/services/reports.py:203-208 | a cursor after a row listed by name and id reads back iff the name takes at most 329 characters in JSON |
| `Cursor.LongNameIsRefused` | backend/app/services/reports.py:203-208 | a name of 70 letters outside ASCII, of the 120 allowed, gives a cursor that is refused |
| `Cursor.UncaughtExactly` | backend/app/core/pagination.py:72-85 | a cursor text makes something other than a cursor error iff it gets as far as its items and the first that cannot be read raises an exception not caught |
| `Cursor.NonTextIdIsUncaught` | backend/app/core/pagination.py:55-66 | a cursor whose id is a number, a boolean, a list or an object is such a text |
| `Cursor.PageByText` | backend/app/core/pagination.py:129-153 | a page by cursor text is refused for its limit or its cursor; else it holds the first rows beyond the cursor, and has a next text iff rows are left, which reads back as the page's last row iff that fits |
| `Cursor.FollowIsComplete` | backend/app/core/pagination.py:129-153 | following the next texts yields every row beyond the cursor once, in order, iff the last row of every page but the last one fits; else a proper beginning of them |
| `Cursor.WholeTable` | backend/app/core/pagination.py:129-153 | from no cursor, where all rows fit, it yields exactly the table, in order |
| `CompactJson.ListReadsBack` | backend/app/core/pagination.py:69-71 | compact ASCII JSON of tagged sort values determines the values |
| `CompactJson.CompactIsLossless` | backend/app/core/pagination.py:69-79 | a writer and readers exist that lose nothing, as the cursor theorems require |
| `CompactJson.CompactIsCompact` | backend/app/core/pagination.py:69-71 | and that have the lengths of compact JSON |

## Left out

- JobRefinement.AccrualRefinesOnePass: requires that nobody else writes the tenant's leave tables during the run, because with other writers the other fields and the counts depend on where they come in between; JobTraffic.AccrualUnderTraffic gives the accrual's own fields with such writers.
- JobTraffic.AccrualUnderTraffic: last year's balances and the configuration stay as they were during the run, because the accrual reads them when each chunk comes.
- OrgTree.UpdateKeepsTree: holds for updates one after another, because `update_org_unit` takes no lock; OrgTree.ConcurrentMoves says when two moves at once keep the forest.
- ReportAnswer.CompilerPreservesMeaning: sums and averages are exact numbers, because PostgreSQL's limit on the digits of an average is not modelled; the text order of the collation is a parameter.
- LeaveRules.PickPolicyIsMostSpecific: grades are put in upper case for ASCII letters only, because full Unicode case mapping is not modelled.
- Cursor.CursorRoundTrip: JSON and the printing of dates, ids and decimals are parameters that lose nothing, because only the tags, the length check and the base64 layer are this code's own; CompactJson gives one such writer, which writes dates, floats and decimals by the numbers that stand for them here.
- Cursor.UncaughtExactly: which texts the readers of dates, decimals and numbers refuse and at which they raise something else is part of the parameter, because they are Python's own; for an id the model says it.
- JobRunner.Runner.Tick: which schedules and runs are looked at is the caller's choice, because any resend is allowed at any time; the stamps and time limits that pick them are not modelled.
- JobRunner.Runner.FireSchedule: the next time is any later one, because cron and time zones are not modelled.
- PostgreSQL's locks, row-level security, the savepoint of a dry run and Celery's queues: transactions are atomic, a dry run discards its changes, and the tasks ever sent form a set from which any may be delivered any number of times or never.
- Overflow of the database's small integers, and dates outside the years 1 to 9999.
- JobRunner.Runner.CreateRun: the refusal of a dry run by a job without one, because both jobs have it; parameters are a date or unreadable.
- Log lines, audit rows, timestamps, names of requesters and error texts.
- The list of single changes in a chunk's output next to the counts.
- Reasons, notes, warnings about absent colleagues and the preview of a balance in a leave request.
- CoreHr.Service.CreateEmployee: numbers, names, codes and addresses come already stripped and in their letter case.
- Labels, the definition text and the row limit of reports, and the views the reports read.
- Stripping the cursor columns from the rows of a page.
- The arithmetic of `CronSim`, passwords, tokens, AI settings, usage metering and exports, which would only add easy members.
