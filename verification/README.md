# Verified models of the translation workbench

Dafny models of the parts of this repository whose correctness depends on many
functions at once, with machine-checked proofs. `dafny verify dfyconfig.toml`
checks the whole project.

* **Leases, permits and budget** (`Price`, `Rows`, `Queue`, `Ledger`, `Executor`,
  `Control`, `Deletion`, `Steps`, `Safety`, `Runs`, `Workers`, `Requests`,
  `Retirement`, `Reopening`, `Scenarios`, `Blocking`, `Budget`, `Fairness`, `Leasing`,
  `Accounts`, `Commands`, `Database`).
  The tables are one value; every transaction is one step; runs are arbitrary sequences of steps
  with arbitrary clocks, row orders and failures. `Workers` adds the one thing the tables
  do not show: the order in which the executor of a lease commits its own transactions.
  `Leasing`, `Accounts` and `Commands` say what each transaction achieves, in the words of
  the caller. The class `Database.Tables` holds the rows as fields and performs the
  transactions in place, each proved equal to its step.
* **Numbers and quantities** (`Decimals`, `Numbers`, `Quantities`). Literals denote
  exact scaled integers; canonical texts and localized quantities are compared with that
  meaning.
* **Document source and translation result** (`Documents`, `Normalization`, `Validator`,
  `Retention`, `TitlePage`, `Translations`, `Guarantees`, `Drafts`, `Published`, `Agreement`,
  `Editing`). The builder of a snapshot and its independent checker are modelled separately
  and proved to agree; `TitlePage`, `Guarantees` and `Published` say what is kept, what
  acceptance guarantees and what is published.
* **Order and parents** (`Ordering`, `Outline`, `AdapterOrder`). The adapter's preorder
  and heading stack against the validator's checks.
* **Tables** (`Tables`, `Placement`, `TableLayout`, `TableAgreement`). Two span-placement
  algorithms and two grid checkers around one notion of tiling. Leftmost-free placement follows
  "Forming a table", section 4.9.12.1 of the HTML Living Standard, except that an overlap
  rejects the table.
* **Text repair** (`EditScripts`, `NativeText`, `NativePasses`, `RichRuns`, `RunRepair`,
  `RunFormats`, `RichTrees`, `TreeRepair`, `TreeSlices`, `TreeChanges`, `TreeCuts`). Results
  hold for every valid edit script, not for one diff algorithm.
* **Reading-order repair and the inference gate** (`LayoutOrder`, `Gate`).
* **Witnesses** (`Witnesses`): the premises of the main results can be met.

Conventions. Row identifiers are positions in append-only tables; an attempt row carries
its permit, since a permit belongs to exactly one attempt. Digests stand for what they
digest, so different content never shares one. Clocks, row orders, admission decisions,
link safety, text patterns, diff scripts and pattern matches are parameters and arbitrary.
Every lemma carries `{:induction false}`: inductions are written out.

## Where the code does less than it seems to promise

* The cleanup of a deleted document cancels tasks whose requests are still in flight
  (`Scenarios.CleanupStrandsRequest`; `Safety.StepKeepsSafe` says exactly when). Their
  answers are still accounted for (`Retirement.LateReportKeepsMoneyOnly`) and the tasks
  never run again (`Retirement.CancelledIsNeverClaimed`).
* A claim that meets the job of a deleted document fails as a whole, so such a job at the
  head of the rotation blocks every claim, the claim of its own cleanup included
  (`Blocking.ClaimIsBlocked`). Only recovery makes such a job claimable again: it meets a
  leased task of the job whose lease expired, while the job is neither cancelled nor
  paused (`Blocking.BlockingIsRecovered`, `Reopening.RecoveryReopens`). That happens to a
  job that had ended before the deletion (`Blocking.QueueIsStuck`), and to a running one
  with a request out, whose doubt overwrites the cancellation
  (`Blocking.DeletionAtWorkIsStuck`).
* In the same way a job the user cancelled can run again although nobody resumed it
  (`Blocking.CancelledJobIsClaimed`; `Reopening.StepReopens` and
  `Reopening.CancelIsOverwritten` say exactly when).
* Two transactions trust their caller: `wait_without_dispatch` refunds an attempt without
  looking at its permit (`Safety.WaitKeeps`), and stopping a connection test without a
  classified outcome leaves a reserved permit on a failed task (`Safety.StopTestKeeps`,
  `Scenarios.StopTestStrandsRequest`). No caller reaches either gap
  (`Workers.AllowedIsInPlace`).
* Marking a released permit unknown would count its reservation again
  (`Budget.MarkUnknownTotal`). No caller does (`Budget.OrderedRunsReviveNothing`).
* An accepted edit of a block in the target language, or of a static control, is stored
  but never shown (`Editing.EditIsPublished`).
* Text appended to the end of a child of a formatted tree belongs to no child, so the
  repair is given up as ambiguous (`TreeChanges.AppendedIsAmbiguous`), and a slice that
  begins or ends on a line break between children is refused (`TreeCuts.InnerSlices`).
* The reading-order loop runs forever on flat boxes at one height
  (`LayoutOrder.FlatBoxesNeverSettle`).
* A writer interrupted while waiting for the gate notifies nobody, and can leave a reader
  asleep for good (`Gate.WakeupsAreKept`, `Gate.InterruptedWriterStrandsReader`).

## Model

| member | source | states |
|---|---|---|
| `Safety.StepKeepsKept` | src/packages/jobs/queue.py:82-207 | One transaction, of any kind, keeps "a request in flight is on the attempt of its task's newest fence, and the task is leased, succeeded or cancelled; permits, and the one a running lease may still ask for, stay within the counted attempts" if and only if it is none of the two that trust their caller (`InPlace`) |
| `Safety.StepKeepsSafe` | src/packages/privacy/__init__.py:50-127 | One transaction keeps that invariant together with "no request in flight belongs to a cancelled task" if and only if it is none of those two out of place and no cleanup that meets another unfinished task of its document with a request in flight |
| `Safety.StopTestKeeps` | src/packages/providers/connection.py:63-78 | Stopping a connection test keeps the invariant exactly when the outcome is classified or the attempt holds no reserved permit |
| `Safety.WaitKeeps` | src/packages/translation/execution.py:187-200 | Giving a lease back keeps the invariant exactly when the refunded attempt is covered (no permit, or a spare attempt) |
| `Safety.RefundKeeps` | src/packages/translation/execution.py:190-196 | The refund itself: permits stay within attempts exactly when some counted attempt went without a permit |
| `Safety.FailKeeps` | src/workers/main.py:331-363 | The failure branch refunds only attempts without a permit, so it always keeps the invariant |
| `Safety.ClaimKeeps` | src/packages/jobs/queue.py:82-93 | A claim opens the next fence with a new attempt that has no permit and room for exactly one, leaves every other row alone, and no request of its task is in flight |
| `Safety.AuthorizeKeeps` | src/packages/billing/ledger.py:31-60 | An authorized attempt becomes the only request in flight of its task, uses up exactly the allowance of its lease, and the same lease is refused any further authorization |
| `Safety.RecoverAllQuiet` | src/packages/jobs/queue.py:169-207 | Recovery, in any order of rows, hands out nothing, and every expired task it meets is no longer leased and has no request in flight |
| `Safety.UncertainInflightQuiet` | src/packages/maintenance/__main__.py:62-72 | Maintenance hands out nothing, leaves no request in flight, and for each there was makes permit, attempt, task and job uncertain and raises the job's epoch |
| `Safety.CleanupKeeps` | src/packages/privacy/__init__.py:84-127 | Cleanup, which cancels tasks whatever their permits, still keeps the invariant |
| `Runs.RunsAreSafe` | src/packages/jobs/queue.py:32-207 | Over any sequence of transactions every state is safe if and only if every step is sound where it happens |
| `Workers.AllowedIsInPlace` | src/packages/translation/execution.py:294-369 | Executors that commit in the order of their own code (give back before authorizing, settle before reporting an invalid answer, classify what was sent) never make one of the two trusting calls out of place |
| `Workers.OrderedRunsAreKept` | src/packages/translation/execution.py:294-369 | So every state of every run in which each executor keeps its own order, everything else interleaving freely, keeps the invariant, and phases agree with permits |
| `Retirement.ReachableStatesAreSafe` | src/packages/billing/ledger.py:45-60 | In every state of every such run each request in flight is on its task's newest attempt, one per task, on a task that is leased, succeeded or cancelled under a deleted document; permits never exceed attempts; and a request is ever left in flight on a cancelled task if and only if some cleanup did not wait for it |
| `Retirement.CancelledIsNeverClaimed` | src/packages/jobs/queue.py:63-93 | A task cancelled in such a run is never pending, leased or claimed again, whatever follows |
| `Retirement.RetiredIsNeverClaimed` | src/packages/translation/execution.py:146-158 | A task closed under a deleted document stays closed over every run, late reports, maintenance and resolutions included |
| `Retirement.LateReportKeepsMoneyOnly` | src/packages/translation/execution.py:137-158 | The report of a request whose document was deleted releases its permit or marks it unknown, and changes no task and no job |
| `Requests.RepeatsNeedRisk` | src/apps/api/workflow.py:567-580 | While a request of a task is in flight or of unknown outcome, the task gets a further permit only if earlier the user accepted the risk of that task when that very request was of unknown outcome |
| `Requests.StepHolds` | src/packages/translation/execution.py:137-171 | Step by step: a request in flight or of unknown outcome stays on the newest attempt of a task that is not pending, until its outcome is known or the user accepts the risk |
| `Requests.OnlyRetriesRevive` | src/apps/api/workflow.py:567-580 | A task of unknown outcome becomes pending only by a risk-accepted retry, or by the report of an invalid answer whose charge was settled after all |
| `Scenarios.LateAnswerIsRepeated` | src/packages/translation/execution.py:140-169 | A concrete run in order: recovery makes a request uncertain, its answer is then settled and reported invalid, and a second request goes out with nothing resolved by hand |
| `Scenarios.CleanupStrandsRequest` | src/packages/privacy/__init__.py:84-90 | A concrete run in order: claim, authorize, delete, claim of the cleanup, cleanup; a reserved permit is left on a cancelled task |
| `Scenarios.StopTestStrandsRequest` | src/packages/providers/connection.py:63-78 | A connection test stopped without an outcome while its request is in flight would leave a reserved permit on a failed task; its executor's own order forbids the step |
| `Runs.CommandsOvertakeLeases` | src/apps/api/workflow.py:529-550 | After any run, an accepted pause, cancel or stop, maintenance over a request in flight, deletion, new source or continuation makes every lease of the job taken before fail check, renewal and finish in every later state |
| `Runs.DeadLeaseStaysDead` | src/packages/jobs/queue.py:96-151 | Once a lease's task left `leased` or was claimed again, the lease never passes the check, renewal or finish again, after any transactions, whatever the time and the per-transaction memo |
| `Runs.ClaimReplacesLeases` | src/packages/jobs/queue.py:84-93 | The lease a claim returns is live, and every earlier lease of the same task is dead |
| `Runs.ChargesAreKept` | src/packages/billing/ledger.py:63-103 | Over any run a settled permit keeps its amount and an unknown one stays counted until it is settled |
| `Runs.RetryRequeues` | src/packages/translation/execution.py:135-184 | After a reported provider failure its task is pending if and only if the report put it back, by the conditions named, or it was pending before and the report did not reach it |
| `Blocking.ClaimIsBlocked` | src/packages/jobs/queue.py:63-83 | With admissible work, a claim takes nothing exactly when the first admissible job by rotation belongs to a deleted document and its oldest due task is no cleanup |
| `Blocking.QueueIsStuck` | src/packages/jobs/queue.py:63-83 | A concrete run in order, of a job that had ended when its document was deleted, to a state where the cleanup is due and admissible and the worker loop never claims anything again, however often it recovers and polls |
| `Blocking.DeletionAtWorkIsStuck` | src/packages/jobs/queue.py:169-207 | The same standstill after deleting the document of a running job with one request out and a leased sibling |
| `Blocking.BlockingIsRecovered` | src/packages/jobs/queue.py:185-206 | In every run a job that blocks the queue is the cleanup its document's deletion queued, or a recovery reopened it after the deletion |
| `Blocking.CancelledJobIsClaimed` | src/packages/jobs/queue.py:185-206 | A concrete run in order: the user cancels a running job, recovery overwrites the cancellation with the doubt about one request and puts the sibling back, and the next claim takes the job |
| `Reopening.StepReopens` | src/packages/jobs/queue.py:169-207 | A job without a live lease, or of a deleted document, becomes claimable by a step if and only if it is an accepted resume, an accepted risk, or a recovery whose last decisive row of the job puts a task back |
| `Reopening.RecoveryReopens` | src/packages/jobs/queue.py:182-206 | Recovery makes a job claimable exactly when it meets an expired task of it, free of doubt, not a connection test, without a validated answer and with attempts left, while the job is neither cancelled nor paused, and no later row takes the job out again |
| `Reopening.CancelIsOverwritten` | src/packages/jobs/queue.py:182-188 | A job whose leases are all overtaken loses its cancellation exactly to a recovery that meets an expired task of it with an open request, or to maintenance over a request of it in flight |
| `Reopening.ClaimedAgainIsReopened` | src/apps/api/workflow.py:529-550 | After any run and an accepted pause, cancel or stop, maintenance over a request in flight, deletion, new source or continuation, the job is claimable again only if a later step reopened it in one of these ways |
| `Reopening.ClaimedIsClaimable` | src/packages/jobs/queue.py:54-65 | A claim takes no job but a claimable one, so being claimed again implies being reopened |
| `Reopening.DeletedIsBornOrRecovered` | src/apps/api/library.py:378-398 | In every run a claimable job of a deleted document is the cleanup the deletion queued, or recovery put it back under the tombstone |
| `Budget.RunsStayWithinBudget` | src/packages/billing/ledger.py:9-60 | Over any run in which executors keep their order, settled plus reserved plus unknown controlled charges stay within the instance budget plus the recorded overruns, and requests in flight within the concurrency limit |
| `Budget.JobsStayWithinBudget` | src/packages/billing/ledger.py:48-56 | Over the same runs the charges of every job stay within the highest budget the job had in the run plus its recorded overruns |
| `Budget.OrderedRunsReviveNothing` | src/packages/billing/ledger.py:63-78 | Executors that keep their order never mark a released permit unknown |
| `Budget.TotalsAreExposure` | src/packages/billing/ledger.py:9-19 | The three accumulated columns together are exactly what the permits of a job, or of the instance, expose |
| `Budget.MarkUnknownTotal` | src/packages/billing/ledger.py:63-70 | Marking unknown changes the total exactly when the permit was released: then its whole reservation counts again |
| `Budget.OverrunNeedsReenable` | src/packages/billing/ledger.py:95-102 | Between a settlement above its reservation and the next authorization there is an explicit re-enable |
| `Budget.WithinLimitsNeverDisables` | src/packages/billing/ledger.py:86-102 | Usage inside the limits that priced the reservation never trips the overrun switch |
| `Price.ActualCostIsLeast` | src/packages/billing/price.py:47-61 | A confirmed cost is the least amount whose millionfold covers uncached input at the input rate, cached input at the cached rate and output at the output rate |
| `Price.FreshCostIsLeast` | src/packages/billing/price.py:60-61 | With nothing cached it is the least amount that covers input at the input rate and output at its own |
| `Price.CachedCostIsLeast` | src/packages/billing/price.py:60-61 | With all input cached it is the least amount that covers input at the cached rate and output at its own |
| `Price.OneMoreCached` | src/packages/billing/price.py:60-61 | Counting one more token as cached replaces one input rate by one cached rate in what the cost must cover |
| `Price.CostIsKnown` | src/packages/billing/price.py:47-59 | A cost is confirmed exactly for a valid price and usage that names its tokens consistently, with nothing unconfirmed or unpriced |
| `Price.ReserveIsLeast` | src/packages/billing/price.py:37-44 | The reserve is the least amount for the input limit at the dearer input rate plus the least for the output limit |
| `Price.WithinLimitsWithinReserve` | src/packages/billing/price.py:37-61 | Usage within the token limits costs at most the reserve |
| `Price.ReserveIsTight` | src/packages/billing/price.py:40-44 | Some usage within the limits costs at most one unit less than the reserve |
| `Fairness.BoundedBypass` | src/packages/jobs/queue.py:50-93 | While a job stays eligible and admissible, the claims passing it over plus the jobs still ahead of it never exceed the jobs that were ahead at the start |
| `Fairness.NoSecondClaim` | src/packages/jobs/queue.py:52-63 | While a job is passed over no other job is claimed twice |
| `Database.Tables.ClaimNext` | src/packages/jobs/queue.py:32-93 | The candidate loop claims the least rotation key with an admissible task and its oldest due unit, and writes exactly the claimed state |
| `Database.Tables.AssertCurrent` | src/packages/jobs/queue.py:96-121 | Refuses with the first failed requirement, remembers the lease in the transaction's memo |
| `Database.Tables.RenewLease` | src/packages/jobs/queue.py:124-136 | Extends the lease, in place, exactly when it is live, unexpired and of the job's epoch; how long it then lasts is `Leasing.RenewalLasts` |
| `Database.Tables.FinishTask` | src/packages/jobs/queue.py:139-151 | Finishes the unit, and the job when nothing is left |
| `Database.Tables.RecoverExpiredLeases` | src/packages/jobs/queue.py:169-207 | The loop over expired rows computes the recovery of the whole order |
| `Database.Tables.SumBudget` | src/packages/billing/ledger.py:9-19 | The accumulating loop computes the budget columns, an unknown amount poisoning its column |
| `Database.Tables.CheckDispatch` | src/packages/billing/ledger.py:31-56 | The refusals of `authorize` in their order |
| `Database.Tables.AuthorizeDispatch` | src/packages/billing/ledger.py:31-60 | Either refuses and changes nothing, or issues the permit and marks the attempt dispatching |
| `Database.Tables.MarkUncertain` | src/packages/billing/ledger.py:63-70 | Mark unknown, a settled permit left alone |
| `Database.Tables.Release` | src/packages/billing/ledger.py:73-78 | Release of a reserved permit only |
| `Database.Tables.SettlePermit` | src/packages/billing/ledger.py:81-103 | Settlement, idempotent on equal evidence, with the overrun switch |
| `Database.Tables.FailTask` | src/workers/main.py:331-363 | The four outcomes of the failure branch |
| `Database.Tables.ControlCommand` | src/apps/api/workflow.py:529-550 | Pause, resume and cancel in place; an accepted pause or cancel raises the epoch, which `Runs.CommandsOvertakeLeases` turns into the promise about leases, and a job is resumed only without an unknown charge |
| `Database.Tables.Resolve` | src/apps/api/workflow.py:560-583 | Evidence, stop and risk-accepted retry with their refusals |
| `Database.Tables.SetMaintenanceMode` | src/packages/maintenance/__main__.py:62-85 | Maintenance switch with the uncertain-request loop |
| `Database.Tables.GiveBack` | src/packages/translation/execution.py:187-200 | Giving a lease back, in place |
| `Database.Tables.StopTest` | src/packages/providers/connection.py:63-78 | Stopping a connection test, a refused check rolling the permit back or keeping it as the code decides |
| `Database.Tables.RetryOrStop` | src/packages/translation/execution.py:135-184 | First the money, then, when the lease still counts, the task and its job |
| `Database.Tables.UpdateDispatchSwitch` | src/packages/billing/dispatch.py:19-34 | The switch, refused over unresolved charges unless the risk is accepted |
| `Database.Tables.DeleteDocument` | src/apps/api/library.py:378-398 | The tombstone, the loop over the document's jobs and the queued cleanup |
| `Database.Tables.ReplaceSource` | src/apps/api/library.py:228-240 | The loop that makes unfinished work on a replaced source stale |
| `Database.Tables.CleanupDocument` | src/packages/privacy/__init__.py:50-127 | The check, the nested loops over jobs and tasks and the finished cleanup |
| `Leasing.CheckIsExact` | src/packages/jobs/queue.py:96-121 | The check passes exactly for the newest lease of a running unit, of the job's epoch and an allowed job state, unexpired or already checked, outside maintenance, and under a deleted document only for its cleanup |
| `Leasing.ClaimedUnit` | src/packages/jobs/queue.py:32-93 | A claim takes the oldest due unit of the eligible job that has waited longest since its last claim or creation; it takes nothing only in maintenance, without an eligible job, or at the job of a deleted document |
| `Leasing.ClaimLasts` | src/packages/jobs/queue.py:84-93 | A claimed lease passes check and renewal at every time before now plus the given seconds, and is expired from then on |
| `Leasing.RenewalLasts` | src/packages/jobs/queue.py:124-136 | A renewal gives a live lease exactly that again from now, and changes nothing else |
| `Leasing.RenewalIsExact` | src/packages/jobs/queue.py:124-136 | A renewal is refused exactly in maintenance, for an expired or replaced lease, or when the job moved on; then nothing changes |
| `Leasing.HeartbeatKeepsLease` | src/workers/main.py:285-291 | A worker that renews before each expiry keeps its unit leased under its fence through any number of renewals and recoveries |
| `Leasing.RecoveryWaits` | src/packages/jobs/queue.py:169-181 | Recovery in any order of rows leaves a unit alone whose lease has not expired |
| `Leasing.RecoveredUnit` | src/packages/jobs/queue.py:182-206 | Where recovery leaves an expired unit: uncertain exactly with an open request, cancelled exactly with its job, pending exactly when it may be tried again or its answer is validated, failed otherwise |
| `Leasing.RecoveredJob` | src/packages/jobs/queue.py:182-206 | What becomes of its job: status and reason for each of these ends, a pause kept, other jobs untouched |
| `Leasing.RecoveredAttempt` | src/packages/jobs/queue.py:179-186 | What becomes of its newest attempt: an open request becomes uncertain, one that sent nothing has failed, all else stays |
| `Leasing.FinishedUnit` | src/packages/jobs/queue.py:139-151 | A finished unit succeeds and its job ends in the given state exactly when no other unit of it is pending or leased |
| `Leasing.GivenBack` | src/packages/translation/execution.py:187-200 | A unit given back is due again after two seconds, its attempt uncounted, and its job goes on, waits for budget or waits for settings by the code of the refusal |
| `Leasing.FailedUnit` | src/workers/main.py:331-363 | The verdict of the failure branch: uncertain exactly with an open request, pending exactly when a sibling's scheduling choice spared it, failed otherwise; no effect for a lease that no longer counts |
| `Leasing.FailedAttempt` | src/workers/main.py:331-363 | Its attempt: not executed and uncounted when spared before anything was sent, known failed if it sent nothing otherwise, and untouched if it did |
| `Leasing.RetriedUnit` | src/packages/translation/execution.py:135-184 | A provider failure settles the money first, an invalid answer without evidence of use counting as unknown, and reaches task and job only while the lease counts |
| `Leasing.EndedUnit` | src/packages/translation/execution.py:159-172 | The unit ends exactly on a final code, after three attempts or on a second invalid answer, and is uncertain exactly with an unknown outcome |
| `Leasing.PutBackUnit` | src/packages/translation/execution.py:165-170 | What is put back is due after the named delay, or two seconds after an invalid answer, which uses up the one repair |
| `Leasing.FollowingJob` | src/packages/translation/execution.py:159-183 | The job's state after a reported failure, for every outcome and code |
| `Leasing.StoppedTest` | src/packages/providers/connection.py:63-78 | A stopped connection test of a current lease ends uncertain with its request and failed otherwise, and nothing else changes |
| `Leasing.KeptAnswer` | src/packages/translation/execution.py:374-381 | A validated answer kept with a settled attempt is found again for exactly its own work |
| `Accounts.AuthorizedExactly` | src/packages/billing/ledger.py:31-60 | Authorization is granted exactly for a current lease of a confirmed job with its own profile's price, a bound, no earlier permit, a free slot and room in both budgets |
| `Accounts.AuthorizedAmount` | src/packages/billing/ledger.py:48-60 | An authorization adds exactly the reserved amount to the job's and the instance's totals, under cost control only |
| `Accounts.BoundIsExact` | src/packages/billing/ledger.py:38-44 | A controlled dispatch needs a positive bound, or zero at a free price; an uncontrolled one none |
| `Accounts.SettledAmount` | src/packages/billing/ledger.py:81-103 | Settlement replaces the reserved amount by the cost in the totals, and turns dispatch off exactly on an overrun |
| `Accounts.SettledTwice` | src/packages/billing/ledger.py:86-92 | Settling again with the same evidence changes nothing, with other evidence it is refused |
| `Accounts.SettleIsRefused` | src/packages/billing/ledger.py:81-94 | When a settlement is refused, exactly |
| `Accounts.ReleasedAmount` | src/packages/billing/ledger.py:73-78 | A release takes exactly the reservation off the totals, and is refused for anything but a reserved permit |
| `Accounts.ColumnsAreSeparate` | src/packages/billing/ledger.py:9-19 | The columns hold settled, reserved and unknown permits separately, each the sum of its own |
| `Accounts.UnknownPoisons` | src/packages/billing/ledger.py:9-19 | An amount nobody knows in any column lets no further amount into any budget |
| `Accounts.DispatchSwitch` | src/packages/billing/dispatch.py:19-34 | Dispatch goes on over uncertain charges only with the risk accepted, and the switch does nothing else |
| `Commands.CommandIsExact` | src/apps/api/workflow.py:529-550 | When pause, cancel and resume are accepted, exactly |
| `Commands.PausedIsResumed` | src/apps/api/workflow.py:529-550 | Pause and resume together put the job back in the queue as it was, in a new epoch |
| `Commands.CancelIsFinal` | src/apps/api/workflow.py:529-550 | A cancelled job takes no further command |
| `Commands.AcceptedRetry` | src/apps/api/workflow.py:560-583 | When a risk-accepted retry is possible, exactly, and that it puts unit and job back with exactly the confirmed budget |
| `Commands.AcceptedStop` | src/apps/api/workflow.py:560-583 | Evidence changes nothing; stop cancels the job in a new epoch; when each is accepted, exactly |
| `Commands.MaintenanceStops` | src/packages/maintenance/__main__.py:62-85 | In maintenance nothing is claimed, checked, renewed, recovered or commanded, and leaving it revives no request |
| `Commands.DeletedJobs` | src/apps/api/library.py:378-398 | Deletion gives every job of the document a new epoch and ends it unless it had ended, touches no other, and queues a cleanup that is due at once |
| `Commands.CleanedUp` | src/packages/privacy/__init__.py:50-127 | Cleanup leaves no job of the document able to send, no unit with work, every unfinished unit cancelled, and no permit or other document touched |
| `Commands.ReplacedJobs` | src/apps/api/library.py:228-240 | A new source ends the unfinished jobs on the old one for good: neither resume nor accepted risk revives them |
| `Commands.ContinuedDraft` | src/apps/api/continuation.py:41-110 | A draft is continued exactly when no earlier job of it is deleted or active or has a request in flight or of unknown outcome, and dispatch is on; jobs that were only waiting are ended |
| `Numbers.CanonicalIffEqual` | src/packages/editorial/numbers.py:28-54 | With exponents of at most six digits canonical texts are equal if and only if the literals times their scales are exactly the same number |
| `Numbers.CanonicalIsSound` | src/packages/editorial/numbers.py:28-54 | For every literal: equal canonical texts mean equal numbers; longer exponents compare by spelling and scale only |
| `Numbers.CanonicalDenotes` | src/packages/editorial/numbers.py:34-54 | The canonical text, read as decimal notation, is exactly the scaled literal |
| `Numbers.LayoutReads` | src/packages/editorial/numbers.py:43-53 | Each of the four layouts denotes exactly its digits times the power |
| `Numbers.ComparisonCountsQuantities` | src/packages/editorial/numbers.py:69-78 | The comparison matches if and only if both texts state every quantity equally often |
| `Numbers.DifferencesAreSurplus` | src/packages/editorial/numbers.py:69-78 | Missing and extra values are exactly the surplus of occurrences |
| `Quantities.LocalizeIsExact` | src/packages/ir/quantities.py:11-27 | The printed number times its Chinese unit is exactly the source number times its scale word, and both have the same canonical text |
| `Quantities.LocalizedTextIsExact` | src/packages/ir/quantities.py:11-27 | The returned text, split at its unit character, states the source quantity; other locales and over-long values give nothing |
| `Quantities.UnitIsLargest` | src/packages/ir/quantities.py:20-23 | The unit is the largest the quantity's magnitude reaches |
| `Quantities.NothingRounds` | src/packages/ir/quantities.py:20-23 | Within the context precision no multiplication rounds |
| `Quantities.FixedDenotes` | src/packages/ir/quantities.py:23-25 | Fixed-point printing with trailing zeros trimmed denotes exactly the decimal |
| `Normalization.ReplayIsSplice` | src/packages/ir/validator.py:207-214 | Replaying edits from the last to the first equals splicing them left to right |
| `Normalization.Reproduce` | src/packages/ir/validator.py:207-214 | The interval check and the backward loop: rejects exactly disordered or unevidenced edits, else returns the spliced text |
| `Documents.FlattenInline` | src/packages/ir/validator.py:89-101 | Visible text, or a refusal exactly when some protected reference is unknown |
| `Documents.InlineRefs` | src/packages/ir/validator.py:111-122 | Accepts exactly known atoms, known cross-references and safe links |
| `Documents.FlattenReads` | src/packages/ir/validator.py:89-101 | The visible text of a concatenation is that of its parts, and refused exactly if one of them is |
| `Documents.FlattenNode` | src/packages/ir/validator.py:89-101 | What each kind of node shows |
| `Documents.HashIsContent` | src/packages/ir/validator.py:104-108 | Two blocks share a hash exactly when kind, text, inline nodes, attributes and the atoms they refer to agree |
| `Validator.WalkParents` | src/packages/ir/validator.py:185-190 | The parent walk ends exactly when no heading repeats on the way |
| `Validator.WalkOwners` | src/packages/ir/validator.py:198-202 | The owner walk ends exactly within sixty-four owners without repetition |
| `Validator.ValidateSource` | src/packages/ir/validator.py:130-285 | Accepts exactly the sources whose blocks, order, title, owners, prose, text, captions, children, notes and tables meet the rules |
| `Validator.OnlyContainersHaveChildren` | src/packages/ir/validator.py:191-197 | In an accepted source only groups, list items, cells, figures, tables, formulas and code own children |
| `Guarantees.AcceptedText` | src/packages/ir/validator.py:207-217 | In an accepted source a block's text is its raw text with evidenced edits that do not overlap, its inline nodes show exactly that text, and every reference in it leads somewhere |
| `Guarantees.AcceptedOwners` | src/packages/ir/validator.py:191-203 | Every block belongs to a root over at most sixty-four different owners, each of a kind that may own the one below |
| `Guarantees.OwnersEndExactly` | src/packages/ir/validator.py:198-202 | The owner walk accepts exactly the blocks that have such a path |
| `Guarantees.AcceptedParents` | src/packages/ir/validator.py:183-190 | Every block hangs under headings that lead to the top without a cycle |
| `Guarantees.AcceptedChildren` | src/packages/ir/validator.py:241-245 | In schema 4.0 a container lists exactly the blocks it owns |
| `Guarantees.AcceptedCaptions` | src/packages/ir/validator.py:232-237 | A figure, table, formula or code block lists exactly the captions it owns, each once |
| `Guarantees.AcceptedNotes` | src/packages/ir/validator.py:248-251 | In schema 4.0 a figure, table or formula lists exactly the footnotes it owns |
| `Guarantees.AcceptedCells` | src/packages/ir/validator.py:238-271 | A structured table shows exactly the cells it owns, each once, on a grid without gap or overlap |
| `Guarantees.AcceptedHeaders` | src/packages/ir/validator.py:263-265 | In schema 4.0 the headers of a cell are header cells of the same table |
| `Guarantees.AcceptedProse` | src/packages/ir/validator.py:204-247 | Prose is translatable save empty cells, and in schema 4.0 empty containers and controls; groups have no text |
| `Guarantees.AcceptedOrder` | src/packages/ir/validator.py:174-178 | Reading order goes through every root once, and the title is a heading |
| `Retention.OriginalOnlyBlocks` | src/packages/ir/retention.py:157-230 | The flag-driven scan computes the policy of the ordered blocks |
| `Retention.PolicyShape` | src/packages/ir/retention.py:173-199 | The title never gets a reason, references always do, and every reason is a policy word |
| `Retention.BibliographyFlag` | src/packages/ir/retention.py:188-199 | The running flag holds exactly when a reference heading came before and no section heading or title since |
| `Retention.BibliographyIsRetained` | src/packages/ir/retention.py:197-199 | Text inside that range is kept as reference, whatever follows |
| `TitlePage.AffiliationIsKept` | src/packages/ir/retention.py:205-218 | Title-page text is kept as an affiliation exactly when the front matter has gone on from the title to it over kept text and blank lines, it lies on the title's pages, no stronger rule speaks, and it reads as one, by the looser pattern behind an author list |
| `TitlePage.AuthorListIsKept` | src/packages/ir/retention.py:205-228 | And as an author list exactly when there it names people and a label, a marker, an earlier author list or a metadata line right behind says they are the authors |
| `TitlePage.OthersAreKept` | src/packages/ir/retention.py:179-199 | Identifier captions, reference headings and text under them get their words exactly under these conditions |
| `TitlePage.CellsAreKept` | src/packages/ir/retention.py:183-187 | Cells are kept exactly for what they hold, each under its own word |
| `TitlePage.LiteralsAreKept` | src/packages/ir/retention.py:200-204 | Identifier and contact lines are kept exactly where no stronger rule speaks |
| `TitlePage.RestIsTranslated` | src/packages/ir/retention.py:157-230 | Every other block, and the title, gets no reason |
| `TitlePage.PageIsSource` | src/packages/ir/retention.py:165-168 | The scan reads every block of the source once, in order |
| `Translations.ValidateIR` | src/packages/ir/validator.py:288-342 | Accepts exactly the bijective results that meet the status, retention, fallback, reference, review and title rules |
| `Guarantees.AcceptedTranslation` | src/packages/ir/validator.py:288-342 | In an accepted translation every block has exactly one result, made from this very source, that shows text without invented references, keeps the source for an admitted reason or falls back to it; a review belongs to exactly what is shown |
| `Drafts.ValidateTarget` | src/packages/editorial/drafts.py:83-107 | Accepts exactly nonblank targets whose references, cross-references and links all occur in the source block |
| `Drafts.TranslationSnapshot` | src/packages/editorial/drafts.py:132-204 | The block loop with its case split computes the snapshot; what it publishes for a block is `Published.PublishedVersion`, `Published.PublishedFallback` and `Published.KeptExactly` |
| `Published.PublishedVersion` | src/packages/editorial/drafts.py:149-194 | A block that is not kept and whose current version is usable shows that version, and is published human reviewed, with a record of this source, target, neighbourhood and glossary, if and only if the history holds a review of that version for exactly these |
| `Published.PublishedFallback` | src/packages/editorial/drafts.py:185-188 | A block is shown as source exactly when it is not kept and has no usable current version, as page exactly when it has no text but a page |
| `Published.PublishedSource` | src/packages/editorial/drafts.py:149-194 | Fallback and kept results carry no target, no review and the draft's glossary |
| `Published.KeptExactly` | src/packages/editorial/drafts.py:150-183 | A block is kept exactly if it is not translatable, in the target language, a static control or held by the policy, and the reason names the first of control, policy, language and kind that applies |
| `Published.Neighbourhood` | src/packages/editorial/drafts.py:35-41 | The recorded neighbourhood is the parent's text and the hashes of the blocks before and behind |
| `Published.EditedGlossary` | src/packages/editorial/drafts.py:116-119 | Which glossary an edit is recorded under |
| `Published.FirstGlossary` | src/packages/editorial/drafts.py:116-119 | And the first version of a block |
| `Drafts.Draft.EditSegment` | src/packages/editorial/drafts.py:111-129 | Refuses or appends the next version, bumps the generation and voids the quality result |
| `Drafts.Draft.CopyRevision` | src/packages/editorial/drafts.py:69-77 | A base revision's translated results become first versions |
| `Agreement.SnapshotIsAccepted` | src/packages/editorial/drafts.py:132-204 | For every accepted source of either schema and every segment and review history the snapshot passes the independent checker, in release and draft mode |
| `Agreement.KeptHasReason` | src/packages/editorial/drafts.py:149-183 | Every kept block gets a nonempty reason, by the checker's own ownership rule for prose that is not translatable |
| `Agreement.KeptIsAllowed` | src/packages/ir/validator.py:324-332 | The reason the builder writes is always one the checker admits |
| `Agreement.TitleAgrees` | src/packages/editorial/drafts.py:195-198 | The builder's title equals the title the checker recomputes |
| `Agreement.TranslatedAccepted` | src/packages/ir/validator.py:312-323 | A target the builder lets through is nonempty and invents no reference |
| `Editing.EditIsPublished` | src/packages/editorial/drafts.py:111-129 | The next snapshot shows an accepted edit exactly and unreviewed, except exactly when the block is in the target language or a static control: then the edit is stored and never shown |
| `Editing.EditLeavesOthers` | src/packages/editorial/drafts.py:111-129 | An edit changes no other block's result |
| `Editing.SecondEditConflicts` | src/packages/editorial/drafts.py:115-116 | Of two edits from the same version the second is refused |
| `Editing.ReviewedIsConfirmed` | src/packages/editorial/drafts.py:51-60 | A published human review was given for the block's current version and exactly this text, source and glossary; the neighbourhood it confirmed is the published one if and only if that version was written there |
| `Editing.ReviewedInContext` | src/packages/editorial/drafts.py:51-60 | In a draft whose versions were all written where their blocks stand, the confirmed fingerprint is the published one, neighbourhood included |
| `Editing.EditIsWrittenHere` | src/packages/editorial/drafts.py:122-124 | Edits keep that |
| `Editing.CopyIsWrittenHere` | src/packages/editorial/drafts.py:69-77 | A draft copied from a sealed revision of the same source starts with it |
| `Editing.CopyReproduces` | src/packages/editorial/drafts.py:63-80 | A draft copied from a sealed snapshot builds the same results and title again, without the reviews |
| `Editing.AcceptedIsUsable` | src/packages/editorial/drafts.py:69-77 | Every translation the checker accepts is a usable segment when copied |
| `Witnesses.SampleIsAccepted` | src/packages/ir/validator.py:130-285 | A concrete schema 4.0 source with a title, a group and a control paragraph is accepted, so the results about accepted sources are not empty |
| `Witnesses.SomeDiff` | src/packages/parsers/fidelity.py:50 | An edit script exists for every pair of texts, so the results about all diffs are not empty |
| `Ordering.AppendContainer` | src/packages/parsers/source_adapter.py:491-494 | The recursive append lists the container in preorder |
| `Ordering.EveryBlockOnce` | src/packages/parsers/source_adapter.py:490-496 | For an owner forest whose roots are the reading order, every block is listed exactly once |
| `Ordering.PreorderOwnersFirst` | src/packages/parsers/source_adapter.py:491-497 | Every owner stands before its owned blocks |
| `Ordering.RootPosition` | src/packages/parsers/source_adapter.py:495-497 | Each root starts where the containers before it end |
| `Ordering.SiblingsInOrder` | src/packages/parsers/source_adapter.py:491-494 | Blocks of one owner stand in the order they come in, each with everything it owns before the next |
| `Ordering.ContainerStands` | src/packages/parsers/source_adapter.py:491-497 | A block and everything below it stand together |
| `Outline.HeadingPass` | src/packages/parsers/source_adapter.py:498-508 | The heading stack gives every heading the nearest earlier heading of smaller level and every other block the nearest heading or the title |
| `Outline.HeadingParent` | src/packages/parsers/source_adapter.py:500-504 | A heading's parent is an earlier heading of strictly smaller level |
| `Outline.HeadingIsOutlined` | src/packages/parsers/source_adapter.py:500-504 | A heading hangs under the latest earlier heading of smaller level, without one at the top, and nothing else about it changes |
| `Outline.BlockIsOutlined` | src/packages/parsers/source_adapter.py:505-508 | Any other block hangs under the latest heading or the title, and a paragraph under a reference heading, and nothing else, becomes a reference that is not translated |
| `Outline.ParentsAreAccepted` | src/packages/ir/validator.py:183-190 | The validator's parent checks accept every parent the pass writes |
| `AdapterOrder.ReadingOrderIsAccepted` | src/packages/ir/validator.py:174-176 | The validator's reading order check accepts the new order |
| `AdapterOrder.OwnerWalk` | src/packages/ir/validator.py:198-202 | The validator's owner walk passes exactly up to sixty-four owners |
| `AdapterOrder.OwnersComeFirst` | src/packages/parsers/source_adapter.py:490-497 | In the adapted blocks an owner's order is smaller than its owned block's |
| `AdapterOrder.AdapterOrderIsAccepted` | src/packages/ir/validator.py:174-202 | All order, reading order, parent and owner checks together |
| `AdapterOrder.Adapt` | src/packages/parsers/source_adapter.py:490-508 | Order assignment and heading pass together |
| `Tables.CoverCell` | src/packages/ir/validator.py:267-270 | The two coverage loops reject exactly an overlap and otherwise cover exactly the cell |
| `Tables.CheckCoverage` | src/packages/ir/validator.py:257-271 | The counting checker accepts exactly the tilings within capacity |
| `Tables.CheckGrid` | src/packages/ir/validator.py:253-279 | Coverage, row groups and column groups, each exactly |
| `Tables.TableGridComplete` | src/packages/parsers/source_adapter.py:36-53 | Accepts exactly well-formed offsets that tile a grid within the limits |
| `Tables.CountIsCover` | src/packages/ir/validator.py:271 | The number of covered slots is the grid size exactly when every slot has an owner |
| `Placement.ReadTable` | src/packages/parsers/table_html.py:122-140 | The span-placement loops compute leftmost-free placement or reject |
| `Placement.FirstFreeIsLeftmost` | src/packages/parsers/semantic.py:249 | The column search finds the first free column |
| `Placement.BuildTiles` | src/packages/parsers/semantic.py:238-272 | Any table either reader returns is tiled exactly |
| `Placement.SemanticCapacity` | src/packages/parsers/semantic.py:259 | The bottom-right cell's own bound limits the whole grid to ten thousand slots |
| `TableLayout.ReadsExactly` | src/packages/parsers/semantic.py:238-272 | A reader returns exactly the cells that make the table and rejects it when there are none: every tag in order with the span it asks for, at the leftmost free place of its row, within the limits, without overlap or gap |
| `TableAgreement.ReadersAgree` | src/packages/parsers/table_html.py:122-140 | Without zero row spans the two readers accept the same tables with the same cells, except that one refuses no columns and more than a thousand |
| `TableAgreement.MarkupIsComplete` | src/packages/parsers/source_adapter.py:36-53 | `table_grid_complete` holds for every table the markup reader returns |
| `TableAgreement.SemanticIsComplete` | src/packages/parsers/source_adapter.py:36-53 | It holds for a table of the semantic reader exactly up to a thousand columns |
| `TableAgreement.RowGroupsAreExact` | src/packages/parsers/semantic.py:241-245 | Row groups partition the rows, hold one section each, and neighbours differ |
| `TableAgreement.ColumnGroupsAreOrdered` | src/packages/parsers/semantic.py:274-281 | Column groups are ordered and inside the grid, bad tags skipped |
| `TableAgreement.TagCoversItsSpans` | src/packages/parsers/semantic.py:274-282 | A good tag with room left covers exactly the next columns, as many as it spans; any other adds no group and takes no column |
| `TableAgreement.TotalIsSum` | src/packages/parsers/semantic.py:276-279 | Spans add up |
| `TableAgreement.SemanticGridIsAccepted` | src/packages/ir/validator.py:252-279 | The validator accepts the grid and groups of every table the semantic reader returns |
| `TableAgreement.CollectRowGroups` | src/packages/parsers/semantic.py:241-245 | The running groups are the specified ones |
| `TableAgreement.CollectColumnGroups` | src/packages/parsers/semantic.py:274-282 | The column-group loop, bad tags skipped |
| `LayoutOrder.RepairOrder` | src/packages/parsers/layout_recovery.py:238-259 | On every list on which the loop ends, it computes the passes, permutes the visible items, keeps unproved items in place, reorders only provable inversions and leaves none between neighbours |
| `LayoutOrder.RepairPass` | src/packages/parsers/layout_recovery.py:241-257 | One pass compares all neighbours in place and reports a change exactly when the list was not settled |
| `LayoutOrder.AsymmetricSettles` | src/packages/parsers/layout_recovery.py:241-257 | The loop ends on every list in which no two items stand above each other |
| `LayoutOrder.SwapInversions` | src/packages/parsers/layout_recovery.py:254-257 | Each exchange removes exactly one wrong pair |
| `LayoutOrder.TallIsAsymmetric` | src/packages/parsers/layout_recovery.py:254 | Boxes of positive height never stand above each other |
| `LayoutOrder.PairSettles` | src/packages/parsers/layout_recovery.py:241-257 | Two neighbours settle if and only if they do not stand above each other |
| `LayoutOrder.FlatBoxesNeverSettle` | src/packages/parsers/layout_recovery.py:241-257 | Two flat boxes at one height make the loop run forever |
| `LayoutOrder.RepairReadsDown` | src/packages/parsers/layout_recovery.py:241-257 | In the repaired list what overtook an earlier item ends above it in one column of one page, by its box and by its lines, and no item ends above the one it directly follows there |
| `NativeText.CarryNative` | src/packages/parsers/fidelity.py:45-58 | The opcode loop and join give the native text spread over exactly the layout's white space |
| `NativeText.ChangeProgress` | src/packages/parsers/fidelity.py:52-54 | Replacing and deleting advance the carried prefix |
| `NativeText.InsertProgress` | src/packages/parsers/fidelity.py:55-57 | Insertions land behind the characters already carried |
| `NativeText.NativeCoreKeeps` | src/packages/parsers/fidelity.py:46 | The native text loses white space and the two soft-hyphen markers, and nothing else |
| `NativePasses.RecoverNativeText` | src/packages/parsers/fidelity.py:37-75 | For every valid edit script a returned text is the native text, white space and soft-hyphen markers aside; its white space is the carried layout's, changed pass by pass only where a proven match closes a gap, and every minus adjoins its arrow |
| `NativePasses.ReportedIsJoined` | src/packages/parsers/fidelity.py:59-74 | Whatever a pass reports and the evidence proves stands in one piece in the result, at the same place: a minus with its arrow, a decimal that stands alone in the native text, an accented word |
| `NativePasses.OtherSpaceStays` | src/packages/parsers/fidelity.py:59-74 | White space inside no proven match is what the carried text had there |
| `NativePasses.ClosedStays` | src/packages/parsers/fidelity.py:59-74 | A gap one pass closed stays closed |
| `NativePasses.NothingFound` | src/packages/parsers/fidelity.py:59-74 | Where no pass finds anything the carried text stays as it is |
| `NativePasses.ArrowsAdjoin` | src/packages/parsers/fidelity.py:62-63 | After the arrow pass every minus adjoins the arrow behind it, whatever passes follow |
| `NativePasses.ArrowIsReported` | src/packages/parsers/fidelity.py:63 | The arrow pattern reports every minus that white space keeps from its arrow |
| `NativePasses.TextIsWoven` | src/packages/parsers/fidelity.py:59-74 | A text is its visible characters and the gaps between them |
| `NativePasses.SubstituteKeepsText` | src/packages/parsers/fidelity.py:59-74 | The arrow, decimal and accent passes, with the replacements the code writes, delete white space only |
| `NativePasses.ReplacementKeepsText` | src/packages/parsers/fidelity.py:59-74 | Minus and arrow joined, whole part and fraction joined by the point, the joined word: each is its match without white space, and an unproven decimal stays as it was |
| `NativePasses.ArrowsAreComposites` | src/packages/parsers/fidelity.py:62-63 | The arrows the pattern finds are as many as the composites of the text without white space, so the count that guards the arrow pass always agrees |
| `RichRuns.ReconcileRuns` | src/packages/parsers/rich_ir.py:65-87 | The opcode loop with its attribution rules computes the repaired runs; the format of changed text is `RunFormats.ChangedTextFormat` |
| `RunRepair.RepairShowsUpdate` | src/packages/parsers/rich_ir.py:65-87 | Unless ambiguous the repaired runs show exactly the updated text, for every edit script |
| `RunRepair.RepairKeepsProtected` | src/packages/parsers/rich_ir.py:79-87 | Every formula, code or control run that shows something survives whole, unchanged and in order |
| `RunRepair.EqualTextKeepsFormat` | src/packages/parsers/rich_ir.py:75-78 | Text the script calls equal keeps every character's format |
| `RunRepair.CutStyled` | src/packages/parsers/rich_ir.py:76-78 | Cutting runs at any positions keeps every character's format |
| `RunFormats.ChangedTextFormat` | src/packages/parsers/rich_ir.py:79-86 | Each character of replaced or inserted text has kind and style of every run the change overlaps, or else of every run touching the place, so of every character it replaces or stands between; the plain default appears exactly when there is no run |
| `RunFormats.AmbiguousExactly` | src/packages/parsers/rich_ir.py:65-87 | A repair is ambiguous exactly when a text is too long, a deletion meets a protected run, or changed text would lie between different formats or in a protected run |
| `RichTrees.ReconcileTree` | src/packages/parsers/rich_ir.py:90-111 | The recursion over children computes the repaired tree |
| `RichTrees.SliceSemantics` | src/packages/parsers/rich_ir.py:131-155 | The slice, or a refusal exactly where a protected run would be divided or the text would differ |
| `RichTrees.CarryRetainedSpans` | src/packages/parsers/rich_ir.py:195-206 | Slices of the retained spans merged in order |
| `TreeRepair.TreeShowsUpdate` | src/packages/parsers/rich_ir.py:90-111 | Unless ambiguous the tree shows the update and every inner text is its children joined by line breaks |
| `TreeRepair.TreeKeepsProtected` | src/packages/parsers/rich_ir.py:90-111 | Protected leaf runs survive whole and in order, ambiguous or not |
| `TreeChanges.AmbiguousInChild` | src/packages/parsers/rich_ir.py:98-111 | A repair whose changes each lie in one child, in front of its end, is ambiguous exactly when the repair of some child to its own part of the new text is |
| `TreeChanges.CrossingIsAmbiguous` | src/packages/parsers/rich_ir.py:100-104 | A change that reaches across the edge of a child makes the repair ambiguous |
| `TreeChanges.AppendedIsAmbiguous` | src/packages/parsers/rich_ir.py:100-111 | So do changes that belong to no child, such as text appended to the end of one |
| `TreeChanges.UntouchedStays` | src/packages/parsers/rich_ir.py:100-108 | A child no change applies to stays as it was |
| `TreeChanges.RepairKeepsShape` | src/packages/parsers/rich_ir.py:90-111 | A repair changes texts and runs, never the nodes |
| `TreeCuts.InnerSlices` | src/packages/parsers/rich_ir.py:131-155 | An inner node can be sliced exactly where the lines it shows can and every line break of the interval stands between two of them |
| `TreeCuts.LeafSlicesExactly` | src/packages/parsers/rich_ir.py:140-155 | A leaf can be sliced exactly where no protected run is divided, a node with cell data never |
| `TreeCuts.CarriedExactly` | src/packages/parsers/rich_ir.py:195-206 | Formatting is carried exactly when the repair is not ambiguous, some text is retained and every retained span of the repaired tree can be sliced |
| `TreeRepair.LeafSlices` | src/packages/parsers/rich_ir.py:145-155 | A leaf slices exactly where no protected run is divided, and shows exactly that interval |
| `TreeRepair.SliceThenMerge` | src/packages/parsers/rich_ir.py:49-62 | Both halves of a cut exist exactly when it breaks no protected run, and joining them with nothing restores text, formats and protected runs |
| `TreeRepair.CarriedShowsSpans` | src/packages/parsers/rich_ir.py:195-206 | Unless ambiguous the carried text is the retained spans joined by spaces |
| `TreeSlices.SliceKeepsFormat` | src/packages/parsers/rich_ir.py:131-155 | A slice of any consistent tree is consistent, and shows exactly the interval of what the tree showed, every character with its format, line breaks between children included |
| `TreeSlices.SliceKeepsProtected` | src/packages/parsers/rich_ir.py:145-155 | Every formula, code or control run in a slice is one of the tree's own, whole and in the tree's order |
| `TreeSlices.MergeKeepsBoth` | src/packages/parsers/rich_ir.py:49-62 | A join exists unless both trees are missing, a missing tree counts as plain text, and the result shows the first, the separator or a line break, and the second, with every format and every protected run |
| `Gate.StepKeepsExact` | src/packages/local_models/service.py:31-56 | Every critical section keeps the counters equal to the threads reading, waiting to write and writing, with a writer alone |
| `Gate.EntryIsFair` | src/packages/local_models/service.py:46-50 | No reader enters while a writer waits or writes, and a writer enters only alone |
| `Gate.WriterIsAlone` | src/packages/local_models/service.py:31-44 | No two writers, no reader beside a writer |
| `Gate.WakeupsAreKept` | src/packages/local_models/service.py:31-56 | A section loses a wake-up if and only if the last waiting writer gives up in front of sleeping readers |
| `Gate.SomeoneMovesOn` | src/packages/local_models/service.py:46-56 | Whenever a thread waits and no wake-up was lost, some thread can leave or enter |
| `Gate.ReachableIsExact` | src/packages/local_models/service.py:24-56 | Counters are exact after any interleaving, and wake-ups are lost only to interrupted writers |
| `Gate.InterruptedWriterStrandsReader` | src/packages/local_models/service.py:37-38 | A reachable standstill: a reader sleeps with nobody inside or in front of it |
| `Gate.InferenceGate.TryWrite` | src/packages/local_models/service.py:35-36 | Enters exactly when nobody reads or writes |
| `Gate.InferenceGate.TryRead` | src/packages/local_models/service.py:49-50 | Enters exactly when nobody writes or waits to write |

## Left out

- Safety.StepKeepsSafe: speaks of task and permit states, not of job states; recovery of a sibling may overwrite a job's state, so claims about terminal jobs do not hold.
- Workers.OrderedRunsAreKept: the order of an executor's own transactions is stated as a premise on the run; the executor's control flow between them is not modelled as code.
- LayoutOrder.PairSettles: says exactly when the loop ends for two items; for longer lists only the sufficient `LayoutOrder.AsymmetricSettles` is proved, since whether two items that stand above each other ever meet depends on the whole run.
- AdapterOrder.AdapterOrderIsAccepted: requires owners to form a forest with the reading order as roots, which the adapter's earlier passes establish and the model does not contain.
- Validator.ValidateSource: leaves out assets, rasters, parser evidence pages, locators, size capacities other than the block count, and formula and picture attributes.
- Translations.ValidateIR: covers the non-blocking content policy only; the older policy compares reference multiplicities through regular expressions.
- NativePasses.RecoverNativeText: takes the equality of letters and digits, the edit script and where the decimal and accent patterns match as given; what they match, the native evidence, what replaces it and the whole arrow pass are modelled.
- Quantities.LocalizedTextIsExact: starts from the matched numeral and scale word; the pattern itself is not modelled.
- Numbers.DifferencesAreSurplus: starts from tokens, like the comparison itself.
- Numbers.ComparisonCountsQuantities: starts from tokens; the tokenizer is a regular expression.
- Job events, generation counters, resource-wait progress, evidence texts and elapsed times of the protocol rows.
- Checkpoint recording, enqueueing and the continuation of a draft are steps on values; they have no method on the tables class.
- The summary a translation or review job computes when its last unit fails is a parameter of the step.
- What cleanup erases besides the control rows (files, drafts, revisions, upload inspections), and metadata retries, which never issue permits.
- Records of stages already finished, which are inserted with their task and attempt in a final state.
- Idempotency receipts, version preconditions and request bodies of the commands.
- Row locks, savepoints and concurrent transactions below the granularity of one transaction, apart from the memo of checked leases and rows held by others during a claim.
- Changes of the instance budget and of the concurrency policy during a run.
- `protected_counts` and its occurrence-by-occurrence replacement, which rests on regular expressions.
- Text predicates of the retention policy (names, affiliations, identifiers) are facts about a block, not modelled text.
- Drafts.TranslationSnapshot: leaves out quality notes, warnings, engine and provider descriptions.
- HTML and Markdown parsing: tables start from rows with containers, sections and spans; cell contents, captions and header associations of the readers are not modelled.
- `reconcile_saved_inline`, `carry_reference_semantics` and the assembly of formatted trees into blocks.
- Paths and annotations of formatted runs; every attribute but the text is one style value.
- Timed waits and thread scheduling of the gate; an exception while waiting is the only interruption modelled.
- The ledger entry that records each reading-order exchange.
