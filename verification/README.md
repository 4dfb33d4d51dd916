# BatchProjects: a verified model of its protocol cores

BatchProjects is a project-management app on Frappe and ERPNext. A small amount of durable
state in it has to stay right across interleaved transactions, crashes, redeliveries and long
runs. This project models those cores in Dafny 4.11 and proves what they promise.
`dafny verify dfyconfig.toml` checks everything.

## The parts

* **Idempotency ledger** (`NodeLedger.dfy`). One ledger row behind one gateway key, and any
  number of `run_rule_node` or `run_workflow_node` requests racing for it. Requests are cut at
  every lookup, lock wait, commit, rollback and crash; a session advisory lock protects the run
  of the action, the row lock the finish.
* **Workflow execution** (`WorkflowExecution.dfy`, `LeaseProtocol.dfy`). The conditional updates
  of the execution and step tables as methods over a table, and then any number of workers that
  claim, renew, dispatch, run, finish, expire, take over and crash on one execution.
* **Milestone billing** (`MilestoneBilling.dfy`, `MilestoneProtocol.dfy`, `MilestoneClaims.dfy`,
  `MilestoneRepairs.dfy`, `MilestoneRuns.dfy`). The projection of
  invoice docstatus onto milestones, the amendment lineage, the 100% budget, and the project and
  milestone row locks with repeatable-read snapshots. The budget proof rests on the projection
  proof, and that on the lineage proof.
* **Billing reservations** (`BillingReservation.dfy`, `ReservationProtocol.dfy`,
  `ExpenseReservation.dfy`, `ExpenseProtocol.dfy`, `LockOrder.dfy`, `Names.dfy`). The timesheet and expense guards, the
  exclusivity of billed details over every interleaving, and freedom from deadlock.
* **Task graph** (`TaskForest.dfy`, `TaskInvariants.dfy`, `TaskOrder.dfy`, `TaskLifecycle.dfy`,
  `TaskHistory.dfy`). The checks of a
  task save keep the hierarchy a forest and the stored `blocks` graph acyclic; on a forest the
  trash and restore recursions end and undo each other.
* **Board ranks** (`Rank.dfy`, `Board.dfy`). Fixed-width numerals, midpoints, re-spacing, and
  exactly how long the room lasts.
* **Derived figures** (`TimesheetSync.dfy`, `Apportion.dfy`, `LastRun.dfy`, `TaskReports.dfy`,
  `Rounding.dfy`). The hours rollup and its capped repair, currency apportionment, last-run
  columns, and the inner algorithms of the delivery report.

Protocols are state machines: `Move` is one step of one request on the database, `Execute` runs a
schedule, and a main theorem speaks of `Execute(schedule)` for every schedule. Steps whose guard
does not hold change nothing, so every list of actions is a schedule. What the source does step
by step on rows is a class whose fields are the tables.

## Assumptions

* A request that raises is rolled back; an uncommitted transaction of a crashed worker is rolled
  back; a session lock is freed at any time after that.
* `_execute` commits nothing itself, and only its conflict exception is retried.
* Hashed keys are injective; invoice and execution names are never reused.
* ERPNext docstatus moves only 0 to 1 to 2; only drafts and cancelled documents are deleted; only
  cancelled invoices are amended.
* A locking read `ORDER BY name` takes its row locks in that order, and nobody inserts a row it
  asked for and did not find before its transaction ends. Plain reads see the snapshot
  of their transaction, locking reads the committed row. `UTC_TIMESTAMP` is fixed when a statement
  starts, before it waits, and does not go back.
* Submitting, cancelling or deleting a document locks its row and compares it with the version
  that was loaded, before the hooks run; the lock is kept until the transaction ends.
* Money, hours, percentages and points are exact; rounding takes the nearest value, a tie going
  to the even digit. Percentages are not negative and do not change while a milestone is active
  (`MilestoneProtocol.ActiveEditFits` says when such a change would be harmless). Their field has
  three decimals of precision, the default.
* Whether a timesheet detail belongs to BatchProjects does not change.
* Saves of tasks, and moves on the board, happen one after the other.

## Where the code and its promises part

* `recoverable_executions` reads rows and later marks one without checking its status again
  (`batch_projects/workflow_execution.py:153`). An execution that finished in between is
  overwritten: `LeaseProtocol.ScanOverwritesOutcome`. `LeaseProtocol.TerminalIsFinalIff` says
  exactly when a terminal execution is safe from this.
* One key used through both node endpoints can run its action twice, because `run_workflow_node`
  takes a claimed row for its own: `NodeLedger.SharedKeyRunsTwice`. With one endpoint per key it
  cannot happen: `NodeLedger.CommitsOnceIffOneEndpoint`.
* `reconcile_all_milestones` reads docstatus from the snapshot of its first query. It can undo a
  submit that committed meanwhile (`MilestoneRuns.RepairUndoesSubmit`), and it can take the
  milestone away from an invoice drafted meanwhile, which may then be billed again
  (`MilestoneRuns.RepairDropsLiveDraft`). `MilestoneProtocol.BooksKeptIffClean` gives the exact
  condition. With an edit in between it can drive a project to 140% of its budget
  (`MilestoneRuns.RepairExceedsBudget`); without one it cannot
  (`MilestoneRepairs.BudgetSurvivesRepairs`).
* A milestone should be on one live invoice at most, and not deletable while it is on one. But an
  amendment that finds no milestone at its predecessor is saved all the same
  (`batch_projects/milestone_billing.py:462-463`), so a milestone can be on two live invoices
  (`MilestoneRuns.AmendedBesideNewDraft`) and deletable while one bills it
  (`MilestoneRuns.DeletableWhileBilled`). `MilestoneClaims.BilledOnceIff` and
  `MilestoneClaims.DeletionLeavesNoneIff` give the exact conditions.
* The 100% check rounds both figures, so percentages with more than three decimals can sum to
  100.001 (`MilestoneRuns.RoundingExceedsBudget`), and to no more
  (`MilestoneProtocol.BudgetNeverExceeded`).
* An amendment of a cancelled expense invoice carries its expenses, but their pointers stay on the
  cancelled one, so the guard lets a second generation bill them:
  `ExpenseProtocol.AmendedExpenseIsBilledTwice`, with the exact condition in
  `ExpenseProtocol.SourcesAreExclusiveIff`.
* `_dependency_reaches` follows stored `blocks` rows only, so accepted saves can make two tasks
  precede each other, by rows of both kinds in one save (`TaskOrder.MixedRowsCanContradict`) or by
  'is blocked by' rows alone in two (`TaskOrder.BlockedByRowsCanContradict`).
  `TaskOrder.ConsistentAfterSave` says exactly which saves do.
* Restore undoes delete only while no older deletion under the subtree carries the same stamp:
  `TaskLifecycle.RestoreUndoesDelete`.

## Model

| member | source | states |
|---|---|---|
| NodeLedger.AtMostOneCommittedRun | batch_projects/api/automation.py:332-491 | over every interleaving of workers on one key, with crashes, lock timeouts, conflict retries that drop the row lock and the advisory lock given back before the commit, at most one committed transaction contains a run, and it leaves the row terminal with that run's outcome; requires that all calls for the key use one endpoint |
| NodeLedger.EveryReplyIsTheStoredOutcome | batch_projects/api/automation.py:337-344 | every committed answer for a key, fresh or replayed, is the one stored outcome |
| NodeLedger.RedeliveryIsAnswered | batch_projects/api/automation.py:332-491 | from any state of any schedule with a finished key, a request that has not ended and whose locks nobody else holds can be answered: some steps of its own, none of them a run of the action, end with the stored outcome as its reply, and row and commit history as they were |
| NodeLedger.DeliveryIsAnswered | batch_projects/api/automation.py:332-491 | the same for an unfinished key: a request that has not run the action yet runs it once, and commits, stores and answers what the action says; one that has run it commits that run |
| NodeLedger.SnapshotIsAnswered | batch_projects/api/automation.py:337-347 | a request whose snapshot shows the terminal row is answered with the stored outcome at its first look and writes nothing |
| NodeLedger.LockedReadIsAnswered | batch_projects/api/automation.py:375-396 | so is one whose insert met a duplicate key, or whose wait for the advisory lock timed out, when it reads the terminal row under lock |
| NodeLedger.RecheckIsAnswered | batch_projects/api/automation.py:397-415 | so is one that finds the row terminal after it got the advisory lock, which it gives back |
| NodeLedger.WaitInVain | batch_projects/api/automation.py:374-396 | a wait for the advisory lock that times out is answered if the row is terminal by then, and refused otherwise; it changes nothing |
| NodeLedger.ConflictsAreRetried | batch_projects/api/automation.py:433-470 | a conflict drops the run and the row lock; the first two are retried, and the third ends in a failed outcome |
| NodeLedger.DeathFreesTheLocks | batch_projects/api/automation.py:484-491 | a request may raise or die at any point before its end, and leaves no run, no uncommitted row and neither lock behind |
| NodeLedger.EndIsFinal | batch_projects/api/automation.py:332-491 | whatever is scheduled later, a request that was answered or rolled back stays as it is |
| NodeLedger.OneRunnerAtATime | batch_projects/api/automation.py:374-491 | between taking the advisory lock and giving it back a worker is alone, and the lock is its own |
| NodeLedger.TerminalForever | batch_projects/workflow_execution.py:245-283 | whatever is scheduled later, a terminal row never changes and a claimed one can only become terminal |
| NodeLedger.InvStep | batch_projects/api/automation.py:332-491 | one step of any request keeps the inductive invariant: an executing worker holds the advisory lock, a finishing one the row lock until it commits |
| NodeLedger.CrashedRunIsReplaced | batch_projects/api/automation.py:489-491 | a reachable run in which a worker dies after the action and after the advisory lock was given back: its run is lost and the next worker commits the only one |
| NodeLedger.SharedKeyRunsTwice | batch_projects/api/automation.py:1433-1485 | counterexample for a key used through both endpoints: a reachable state in which both committed a run of the action |
| NodeLedger.CommitsOnceIffOneEndpoint | batch_projects/api/automation.py:332-491 | over every schedule the committed transactions of a key ran its action at most once in all, and at most one commit ran it or made the row terminal, if and only if the key is not used through both endpoints |
| WorkflowExecution.WorkflowTable.Admit | batch_projects/workflow_execution.py:48-94 | one execution per (workflow, event): a second admission creates nothing and never rewrites the first |
| WorkflowExecution.WorkflowTable.ClaimLease | batch_projects/workflow_execution.py:97-113 | a lease is given exactly on a row that is pending, or running with no expiry or one before now; it is the next generation for the asker, running, expiring now plus the clamped seconds, and nothing else of any row changes |
| WorkflowExecution.WorkflowTable.RenewLease | batch_projects/workflow_execution.py:116-130 | a renewal moves the expiry of a live lease of the same owner and generation, and does nothing otherwise |
| WorkflowExecution.WorkflowTable.FinishExecution | batch_projects/workflow_execution.py:335-349 | only the live lease ends a running execution; otherwise nothing changes |
| WorkflowExecution.WorkflowTable.BeginExternalStep | batch_projects/workflow_execution.py:286-306 | succeeds exactly when the step can be had under the lease and is terminal, or the lease still lives at the write and the step can be read back; a new step is stored as dispatching without a result and answered so, a finished one is answered and kept, and one its snapshot already shows is answered from there |
| WorkflowExecution.WorkflowTable.FinishWorkflowStep | batch_projects/workflow_execution.py:309-332 | under a live lease a claimed or dispatching step takes exactly the status and result of the call, with or without a result, and is answered as stored; a terminal step is refused and kept |
| WorkflowExecution.WorkflowTable.RunLocalStep | batch_projects/api/automation.py:1495-1558 | succeeds exactly for a local step that is recorded, or claimed with an action that answers and a lease that still lives at the finish; a run is stored as failed if its action answered "Failed" and as succeeded otherwise, with its body; a recorded step is replayed, and everything else changes nothing |
| WorkflowExecution.WorkflowTable.RecoverableExecutions | batch_projects/workflow_execution.py:133-166 | the answered rows, in creation order, and the rows marked for review are exactly the recoverable ones up to the limit |
| WorkflowExecution.ScanIsRecoverable | batch_projects/workflow_execution.py:136-143 | the scan answers exactly the pending and the expired running executions |
| WorkflowExecution.ScanFollowsCreation | batch_projects/workflow_execution.py:136-143 | the rows come in creation order: one created last is answered last, if it is recoverable |
| WorkflowExecution.RecoveryMeans | batch_projects/workflow_execution.py:133-166 | a scan takes as many of the recoverable rows as the limit allows, and all of them if they are fewer; of those it answers the ones whose definition stands, marks the others for review, and changes no other row |
| WorkflowExecution.LeaseSeconds | batch_projects/workflow_execution.py:99 | whatever is asked for, a lease lasts between 10 and 300 seconds |
| WorkflowExecution.LeaseGrowsWithTheRequest | batch_projects/workflow_execution.py:99 | and whoever asks for more seconds does not get a shorter one |
| LeaseProtocol.LeasesAreFenced | batch_projects/workflow_execution.py:97-166 | in commit order generations never fall, every claim raises them, one generation has one owner, so nothing of an older lease commits after a later claim |
| LeaseProtocol.ReplacedLeaseIsDead | batch_projects/workflow_execution.py:359-368 | a lease that a later claim replaced passes the lease check at no time |
| LeaseProtocol.EffectsCommitOnce | batch_projects/api/automation.py:1530-1555 | over every interleaving, expiry, takeover and crash, the action of a node is committed at most once, and so are the confirmed dispatch and the finish of an external one |
| LeaseProtocol.LiveLeaseIsNotTaken | batch_projects/workflow_execution.py:97-113 | in every reachable state a claim takes the row exactly when it is pending, or running with no expiry or one before the clock it read; otherwise it writes nothing, so nobody evicts a live holder |
| LeaseProtocol.LeaseHoldsUntilItExpires | batch_projects/workflow_execution.py:97-130 | along every schedule a claim or renewal lasts 10 to 300 seconds, whatever commits before the next one was checked no later than its expiry, and the next claim only after it |
| LeaseProtocol.OnlyTheHolderWrites | batch_projects/workflow_execution.py:116-130 | a renewal, an end or a finished step is written exactly under the live lease of the row, the last on a step that is there and not finished, and writes just that |
| LeaseProtocol.NothingAfterTheEnd | batch_projects/workflow_execution.py:335-349 | the end of an execution is the last commit under any lease |
| LeaseProtocol.OutcomeIsLogged | batch_projects/workflow_execution.py:335-349 | an ended execution has the outcome its holder gave last, or the mark of a recovery scan |
| LeaseProtocol.EndIsFinal | batch_projects/workflow_execution.py:97-349 | whatever is scheduled later, a request that committed or was refused stays as it is, its reply included |
| LeaseProtocol.ActionsAreRecorded | batch_projects/api/automation.py:1545-1555 | a committed action is in its step row, as failed exactly if it failed and as succeeded otherwise, with its own body; and every committed frappe_atomic step is terminal |
| LeaseProtocol.FinishesAreRecorded | batch_projects/workflow_execution.py:309-332 | a committed finish of an external step is in its row for good, with the status and result of the call |
| LeaseProtocol.ExternalStepsHaveTheirEvent | batch_projects/workflow_execution.py:286-332 | a finished external step has a committed finish call of its node, with its status and result; until then it is dispatching without a result, and its dispatch has committed |
| LeaseProtocol.StepsAreTheLog | batch_projects/workflow_execution.py:245-332 | the committed step rows are exactly what the committed dispatches, finishes and actions say |
| LeaseProtocol.RecordedStepIsReplayed | batch_projects/api/automation.py:1530-1539 | a later live holder that asks for a recorded step gets the record and performs no action |
| LeaseProtocol.FinishedStepIsAnswered | batch_projects/workflow_execution.py:286-306 | a later live holder that asks for a finished external step dispatches nothing, and is answered with the recorded step if and only if its snapshot does not show the step still under way; otherwise it gets that older version |
| LeaseProtocol.RowsOnlyGrow | batch_projects/workflow_execution.py:245-349 | along every schedule a step only moves from claimed to dispatching to terminal, a terminal step keeps status and result, a terminal execution stays terminal |
| LeaseProtocol.TerminalExecutionChanges | batch_projects/workflow_execution.py:153-155 | one step changes a terminal execution exactly when it commits the unguarded mark of a recovery scan that saw it recoverable |
| LeaseProtocol.ScanSawItDue | batch_projects/workflow_execution.py:133-155 | a recovery scan marks only what its snapshot showed as pending, or running with no expiry or one before the clock it read |
| LeaseProtocol.TerminalIsFinalIff | batch_projects/workflow_execution.py:136-155 | a terminal execution is the same after every later schedule if and only if no recovery scan that found its definition changed and saw it before its end is still under way, or it already carries what such a scan writes |
| LeaseProtocol.ScanOverwritesOutcome | batch_projects/workflow_execution.py:136-155 | counterexample: an execution finishes successfully between the scan's read and its mark, and the mark overwrites the outcome |
| LeaseProtocol.ExpiryMidRequest | batch_projects/api/automation.py:1550-1555 | a reachable run whose lease expires while the action runs: the second check refuses and nothing of it is committed |
| LeaseProtocol.TakeoverActs | batch_projects/api/automation.py:1530-1555 | a reachable run in which the next generation then commits the action once |
| LeaseProtocol.StepIsDispatched | batch_projects/workflow_execution.py:286-306 | a reachable run that dispatches an external step: the row is dispatching, without a result, and so is the answer |
| LeaseProtocol.StepIsFinished | batch_projects/workflow_execution.py:309-332 | it goes on to any status and result, failed without a result included |
| LeaseProtocol.LeaseIsRenewed | batch_projects/workflow_execution.py:116-130 | a reachable run that renews the lease |
| LeaseProtocol.InvStep | batch_projects/workflow_execution.py:97-349 | one step of any request keeps the inductive invariant and lets rows only grow |
| MilestoneBilling.MilestoneTable.ReservedPercent | batch_projects/milestone_billing.py:144-183 | the pass over the active percentage rows of a project computes its live reservation without the excluded milestone |
| MilestoneBilling.ReservedCounts | batch_projects/milestone_billing.py:144-183 | a row counts if and only if it is a percentage row of the project, drafted or invoiced, and not the excluded one |
| MilestoneBilling.MilestoneTable.AssertPercentCapacity | batch_projects/milestone_billing.py:186-215 | the check passes exactly when the reservation of the others and the asked percentage, each rounded to three decimals, stay within 100 |
| MilestoneBilling.FitsMeans | batch_projects/milestone_billing.py:202-207 | a passed check means at most 100.001 exactly and, with the digits after the third dropped, at most 100 |
| MilestoneBilling.FitsIsExact | batch_projects/milestone_billing.py:202-207 | for figures with at most three decimals the rounded check is the plain comparison with 100 |
| MilestoneBilling.MilestoneTable.Generate | batch_projects/api/erp_link.py:1867-1966 | a draft is made exactly for a completed, billable, uninvoiced milestone within budget whose project has an ERPNext project, a client and an income account, and the milestone points at it; a refusal changes nothing |
| MilestoneBilling.MilestoneTable.OnTransition | batch_projects/milestone_billing.py:382-438 | a submit, cancel or trash moves the docstatus and the one milestone that points at the invoice, or no milestone when none does |
| MilestoneBilling.MilestoneTable.OnAmend | batch_projects/milestone_billing.py:441-495 | an amendment takes over the milestone that points at its predecessor if the budget still has room; otherwise it is refused whole or takes nothing |
| MilestoneBilling.MilestoneTable.Reconcile | batch_projects/milestone_billing.py:284-312 | the repaired state is the derived one and a fixed point of the derivation; nothing is written exactly when it already was |
| MilestoneProtocol.DeletableMeansNoLiveInvoice | batch_projects/milestone_billing.py:218-234 | in every reachable state the check before a deletion passes exactly when the milestone points at no draft or submitted invoice |
| MilestoneClaims.DeletionLeavesNoneIff | batch_projects/milestone_billing.py:218-234 | in every such state no draft or submitted invoice carries the milestone's lines if and only if the check passes and no live amendment carries them that the milestone does not point at |
| MilestoneRuns.DeletableWhileBilled | batch_projects/milestone_billing.py:419-438 | a reachable run after which the check passes, and that of a further invoice, while a live amendment still bills the milestone |
| MilestoneClaims.BilledOnceIff | batch_projects/milestone_billing.py:441-495 | along every run without an outdated bulk repair each milestone stays on at most one draft or submitted invoice if and only if no invoice is drafted for a milestone beside a live amendment of an earlier one, and none is amended while its milestone is on another live one |
| MilestoneClaims.BilledOnceWithoutAmendments | batch_projects/milestone_billing.py:334-438 | so as long as nothing is amended no interleaving of generate, submit, cancel, trash, reconcile and edits puts a milestone on two live invoices |
| MilestoneClaims.AttributedAlways | batch_projects/milestone_billing.py:382-495 | along every such run an amendment bills what its predecessor billed, a milestone points only at invoices that bill it, and at every live one that amends nothing |
| MilestoneRuns.AmendedBesideNewDraft | batch_projects/milestone_billing.py:456-463 | a reachable run in which a cancelled invoice is amended after its milestone was invoiced anew: the amendment finds no milestone and both drafts bill it |
| MilestoneBilling.PointersAreDistinct | batch_projects/milestone_billing.py:334-379 | under the kept invariant no two milestones point at the same invoice |
| MilestoneBilling.TrashUndoesAmend | batch_projects/milestone_billing.py:419-495 | amending and then trashing the amendment puts every milestone back as it was |
| MilestoneProtocol.BudgetNeverExceeded | batch_projects/milestone_billing.py:119-215 | in every reachable state of any interleaving of generate, amend, submit, cancel, trash, reconcile, bulk repair and edits, as long as no bulk repair commits from an outdated snapshot, every project's live percentages sum to at most 100 if they have at most three decimals; in general their cut values sum to at most 100 and they themselves to at most 100.001 |
| MilestoneRuns.RoundingExceedsBudget | batch_projects/milestone_billing.py:202-207 | a reachable run that attains the bound: two live milestones of 50.0005 each |
| MilestoneProtocol.CleanWithoutRepairs | batch_projects/milestone_billing.py:315-331 | a run in which nobody starts a bulk repair has no outdated one, so everything said of such runs holds of it |
| MilestoneRepairs.BudgetSurvivesRepairs | batch_projects/milestone_billing.py:144-331 | bulk repairs may commit from any snapshot: as long as no committed edit raises what a milestone would reserve, every project stays within that budget |
| MilestoneRepairs.ExcessTakesBoth | batch_projects/milestone_billing.py:144-331 | a project beyond its budget takes both, a raising edit and an outdated bulk repair |
| MilestoneRuns.RepairExceedsBudget | batch_projects/milestone_billing.py:315-331 | a reachable run to 140%: of 60% and 40% live the first is cancelled and raised to 100% after the snapshot of a bulk repair, which declares it invoiced again |
| MilestoneProtocol.StatusIsDerived | batch_projects/milestone_billing.py:237-331 | in every such state each stored status is the one derived from the pointed invoice, and no two milestones point into one amendment lineage |
| MilestoneProtocol.LiveInvoiceReachesItsMilestone | batch_projects/milestone_billing.py:334-379 | although discovery reads an old snapshot, an event on a live invoice always reaches the milestone that points at it |
| MilestoneProtocol.StaleEventsChangeNothing | batch_projects/milestone_billing.py:334-495 | along every such schedule the commit of a submit, cancel, trash or amendment leaves every milestone row alone that does not point at its invoice at that moment, whatever it discovered before |
| MilestoneProtocol.ReservationHoldsAtCommit | batch_projects/api/erp_link.py:1867-1966 | what a generator or amender checked under its locks still holds when it commits: the milestone is completed, billable and uninvoiced and fits the budget; the commit points it at the new draft |
| MilestoneProtocol.DecideMeans | batch_projects/milestone_billing.py:54-141 | what a request that holds its rows goes on to write or refuses, in the fields of the locked row |
| MilestoneProtocol.EndedHoldsNothing | batch_projects/milestone_billing.py:119-141 | along every schedule a request that committed or was refused has given every lock back |
| MilestoneProtocol.InvStep | batch_projects/milestone_billing.py:119-495 | one step of any request that is no outdated bulk repair keeps the invariant of books, locks and pending effects |
| MilestoneProtocol.BooksKeptIffClean | batch_projects/milestone_billing.py:315-331 | every step of a run keeps the books sound and every live invoice at its milestone if and only if no bulk repair commits after the docstatus standing of an invoice some milestone points at changed since its snapshot |
| MilestoneProtocol.EffectStable | batch_projects/milestone_billing.py:54-141 | a commit under its own locks leaves every other request's pending effect allowed |
| MilestoneProtocol.SnapshotRepairIsRight | batch_projects/milestone_billing.py:315-331 | the bulk repair leaves a correct milestone alone exactly when its snapshot shows the pointed invoice with its present docstatus |
| MilestoneRuns.RepairUndoesSubmit | batch_projects/milestone_billing.py:315-331 | a reachable run in which a submit commits after the snapshot of the bulk repair and is undone by it |
| MilestoneRuns.RepairDropsLiveDraft | batch_projects/milestone_billing.py:315-331 | a reachable run in which an invoice drafted after the snapshot loses its milestone to the bulk repair while it is live, so that the milestone may be invoiced a second time |
| MilestoneProtocol.ActiveEditFits | batch_projects/milestone_billing.py:144-215 | changing the percentage of an active milestone keeps its project within a limit exactly when the new one fits beside the others |
| MilestoneRuns.SecondGeneratorIsRefused | batch_projects/milestone_billing.py:119-141 | a reachable run of two generators racing for 60% each: the second waits for the project and is refused |
| MilestoneRuns.AmendmentTakesOver | batch_projects/milestone_billing.py:441-495 | a reachable run in which the amendment of a cancelled invoice takes over its milestone |
| MilestoneRuns.ReconcileRepairs | batch_projects/milestone_billing.py:284-312 | a reachable run in which a stored status that is not the derived one is repaired |
| LockOrder.PlansAreInOrder | batch_projects/expense_reservation.py:145-290 | the rows a guard waits for come in ascending (table, name) order, for both guards |
| LockOrder.NoDeadlock | batch_projects/expense_reservation.py:60-393 | no schedule of any number of timesheet and expense guards reaches a deadlock |
| LockOrder.SomeGuardCanMove | batch_projects/billing_reservation.py:216-300 | while any guard runs, one of them can take its next row or has them all |
| LockOrder.GuardsExcludeEachOther | batch_projects/expense_reservation.py:60-140 | along every schedule two guards never have the same row, whether they waited for it or not |
| LockOrder.StartMeans | batch_projects/expense_reservation.py:145-310 | what a guard waits for: its timesheet details, or the discovered parents, the expense details, their types and the invoices they point at |
| LockOrder.NoWaitMeans | batch_projects/billing_reservation.py:216-300 | the claim rows are taken without waiting: all of them if nobody else has one, and otherwise the guard is refused and gives everything back |
| Names.SortedNames | batch_projects/expense_reservation.py:28-33 | the distinct given names in ascending order |
| Names.AscendingIsUnique | batch_projects/expense_reservation.py:28-33 | there is only one such list, so the lock order does not depend on how the names were given |
| BillingReservation.BillingTables.CleanDetailNames | batch_projects/billing_reservation.py:32-43 | blank names go and every other keeps its multiplicity |
| BillingReservation.BillingTables.BpLinkedSourceNames | batch_projects/billing_reservation.py:137-181 | exactly the rows that carry a task or whose project a BP Project links |
| BillingReservation.BillingTables.ValidateLockedSourceState | batch_projects/billing_reservation.py:184-213 | passes exactly when every locked row has docstatus 1 and is billable, and reports it otherwise |
| BillingReservation.BillingTables.GuardedNames | batch_projects/billing_reservation.py:382-434 | the names to lock: all of them for BatchProjects' own billing, the owned ones for the site-wide hook, or the duplicate refusal |
| BillingReservation.BillingTables.GuardTimesheetDetails | batch_projects/billing_reservation.py:367-518 | succeeds exactly when no guarded name is repeated, every one exists, has docstatus 1, is billable, and is neither billed nor claimed elsewhere, and no other transaction holds their claim rows; it answers them in order, and each refusal names what some guarded row fails |
| BillingReservation.NoClaims | batch_projects/billing_reservation.py:216-300 | the claim read is empty exactly when no live invoice other than the current one has any of the names |
| ReservationProtocol.DetailsAreExclusive | batch_projects/billing_reservation.py:367-518 | over every interleaving of saves, submits, cancels, deletions and timesheet edits, an owned detail is on at most one live invoice and at most once on it |
| ReservationProtocol.BilledHoursAreSubmitted | batch_projects/billing_reservation.py:184-213 | over every interleaving, when a save or submit commits, each source it guards has docstatus 1 and is billable, in the state it writes too: an edit or cancellation of the timesheet waits for the locked row |
| ReservationProtocol.EndedHoldsNothing | batch_projects/billing_reservation.py:367-518 | along every schedule a request that committed or was refused has given every lock back |
| ReservationProtocol.ResaveIsRefusedOnlyForItsSources | batch_projects/billing_reservation.py:457-482 | saving a draft again is refused exactly when a source stopped being submitted and billable, never for its own claims |
| ReservationProtocol.CheckIsTheGuard | batch_projects/billing_reservation.py:664-694 | the check of a save in the protocol is the demand of the guard on the lines of the invoice |
| ReservationProtocol.WriteExclusive | batch_projects/billing_reservation.py:450-516 | a write that passed the guard under its locks keeps every detail exclusive |
| ReservationProtocol.SecondSaveIsRefused | batch_projects/billing_reservation.py:478-516 | a reachable run of two saves racing for one detail: the second waits for the row and is refused |
| ExpenseReservation.ExpenseTables.CheckParents | batch_projects/expense_reservation.py:207-227 | passes exactly when every locked detail still has its discovered, locked parent |
| ExpenseReservation.ExpenseTables.CheckState | batch_projects/expense_reservation.py:229-265 | passes exactly when every claim and detail is submitted, in the project, and billable |
| ExpenseReservation.ExpenseTables.CheckPolicies | batch_projects/expense_reservation.py:267-305 | passes exactly when no detail has a type that is not billable |
| ExpenseReservation.ExpenseTables.CheckClaims | batch_projects/expense_reservation.py:307-355 | passes exactly when no detail points at a draft or submitted invoice |
| ExpenseReservation.ExpenseTables.GuardExpenseClaimDetails | batch_projects/expense_reservation.py:145-393 | passes exactly when every named detail and its discovered claim exist and stand, are submitted, in the project and billable, and point at no live invoice; it answers the distinct names, each with the values read under lock; otherwise it reports the first check in order that some detail fails |
| ExpenseProtocol.SourcesAreExclusive | batch_projects/expense_reservation.py:1-18 | over every interleaving of generations with submits, cancels, deletions and edits, no expense source is ever on two live invoices, as long as none of those invoices is amended |
| ExpenseProtocol.SourcesAreExclusiveIff | batch_projects/expense_reservation.py:307-355 | with amendments, sources stay exclusive along a run if and only if no generation drafts a source that a live amendment carries and no invoice is amended while one of its sources is on a live one |
| ExpenseProtocol.OnlyAmendmentsEscape | batch_projects/expense_reservation.py:307-355 | a live invoice that carries a source the guard let pass is an amendment, because every other one is pointed at by the source |
| ExpenseProtocol.BilledExpensesAreBillable | batch_projects/expense_reservation.py:145-393 | over every interleaving, also with edits of claims, details, types and invoices, a generation bills from the values its sources have when it commits: each is submitted and billable under a submitted claim of the project, its type may be billed, and the invoice it points at is not live; every source then points at the new draft |
| ExpenseProtocol.CheckMeans | batch_projects/expense_reservation.py:192-355 | a generation that has the rows of a group locked goes on exactly if the checks of that group refuse none of its sources |
| ExpenseProtocol.EndedHoldsNothing | batch_projects/expense_reservation.py:145-393 | along every schedule a generation that committed or was refused has given every lock back |
| ExpenseProtocol.AmendedExpenseIsBilledTwice | batch_projects/expense_reservation.py:323-337 | a reachable run in which an expense invoice is cancelled and amended and a second generation bills the same expense |
| ExpenseProtocol.InvStep | batch_projects/expense_reservation.py:145-393 | one step keeps every draft of a generation pointed at by its sources and every checked source free |
| TaskForest.Reparent | batch_projects/task_invariants.py:305-328 | giving a task a parent whose chain ends without meeting the task keeps the hierarchy a forest |
| TaskInvariants.TaskTable.ClimbAncestors | batch_projects/task_invariants.py:318-328 | the walk accepts exactly when the chain ends within 1000 steps without meeting the task, and reports a cycle exactly when an ancestor among them is the task or repeats |
| TaskInvariants.TaskTable.ValidateParent | batch_projects/task_invariants.py:305-328 | which parents a save accepts, and the error of each refused one |
| TaskInvariants.TaskTable.LoadAdjacency | batch_projects/task_invariants.py:411-417 | the grouped rows are the edges of the stored blocks graph |
| TaskInvariants.TaskTable.DependencyReaches | batch_projects/task_invariants.py:407-429 | terminates and answers true exactly when stored blocks rows lead from start to target, in whatever order it explores |
| TaskInvariants.TaskTable.ValidateRow | batch_projects/task_invariants.py:366-404 | the first check a row fails, or the row with its target snapshot aligned |
| TaskInvariants.TaskTable.ValidateLinks | batch_projects/task_invariants.py:352-404 | refuses with the first failing row and accepts exactly when no row fails |
| TaskInvariants.TaskTable.Save | batch_projects/task_invariants.py:109-137 | a save goes through exactly when every check accepts; a refused one changes nothing and reports the first refusal in the order of the checks |
| TaskInvariants.SaveKeepsForest | batch_projects/task_invariants.py:305-328 | an accepted save keeps the hierarchy a forest |
| TaskInvariants.AcyclicAfterSave | batch_projects/task_invariants.py:393-404 | although a save may add many edges at once and drop others, checking each row against the graph stored before is exact: the saved graph is acyclic if and only if no blocks row of the document points at a task that reached it |
| TaskInvariants.SaveKeepsAcyclic | batch_projects/task_invariants.py:352-404 | an accepted save keeps the stored blocks graph acyclic, grandfathered rows included |
| TaskInvariants.SavesKeepBothGraphs | batch_projects/task_invariants.py:275-404 | every sequence of attempted saves keeps both the hierarchy and the blocks graph free of cycles |
| TaskOrder.ConsistentAfterSave | batch_projects/task_invariants.py:393-404 | the order of both kinds of rows together stays free of circles if and only if no row names the task itself and no stored sequence leads from what the task comes before to what comes before it |
| TaskOrder.MixedRowsCanContradict | batch_projects/task_invariants.py:397-404 | counterexample for that order: one accepted save with a row of each kind makes each of two tasks precede the other |
| TaskOrder.BlockedByRowsCanContradict | batch_projects/task_invariants.py:407-417 | a second one with rows of one kind: two tasks saved as blocked by each other |
| TaskHistory.HistoryKeepsHealth | batch_projects/task_invariants.py:275-404 | any sequence of saves, deletions and restores keeps the hierarchy a forest, on which the trash and restore recursions rely, and the blocks graph acyclic |
| TaskHistory.RestoreAfterDelete | batch_projects/task_lifecycle.py:186-208 | as operations of such a sequence, a restore right after a deletion puts the table back, unless an older deletion reused the stamp under it |
| TaskForest.TreeSplits | batch_projects/task_lifecycle.py:124-131 | a subtree is its root and the subtrees of the root's children |
| TaskForest.SiblingsAreApart | batch_projects/task_lifecycle.py:124-131 | in a forest the subtrees of two children share no task, so no task is visited twice |
| TaskForest.ChildIsLower | batch_projects/task_lifecycle.py:119-151 | in a forest the recursion descends into a smaller set of tasks, so it ends |
| TaskLifecycle.TrashTable.TrashTree | batch_projects/task_lifecycle.py:119-150 | trashes exactly the live subtree with one stamp, stops exactly its timers, and lists exactly its tasks, none twice, the root last |
| TaskLifecycle.TrashTable.RestoreTree | batch_projects/task_lifecycle.py:153-182 | revives exactly the tasks hanging from the root with the cascade's stamp, and lists exactly them, none twice, the root first |
| TaskLifecycle.SubtreeMeans | batch_projects/task_lifecycle.py:119-150 | a deletion takes the root and the live children of every task it takes |
| TaskLifecycle.CascadeMeans | batch_projects/task_lifecycle.py:153-182 | a restore revives the root and the children, trashed with the same stamp, of every task it revives |
| TaskLifecycle.TrashTable.DeleteTask | batch_projects/task_lifecycle.py:186-195 | the endpoint: a missing task is an error, a task in trash changes nothing, a live one goes with its live subtree |
| TaskLifecycle.TrashTable.RestoreTask | batch_projects/task_lifecycle.py:199-208 | the endpoint: restores with the task's own stamp, never a task trashed with another |
| TaskLifecycle.RestoreUndoesDelete | batch_projects/task_lifecycle.py:119-182 | delete followed by restore puts every deletion field back if and only if no task trashed before carries the same stamp right under the subtree |
| TaskLifecycle.NestedOperationsUndo | batch_projects/task_lifecycle.py:119-208 | any number of deletions under fresh stamps, restored in the opposite order, is the identity |
| Rank.ParseUndoesFmt | batch_projects/rank.py:28-36 | parse(fmt(n)) = n for every n |
| Rank.TextOrderIsNumberOrder | batch_projects/rank.py:24-29 | below 10^12 the text order of two ranks is their number order |
| Rank.WidthIsExact | batch_projects/rank.py:24-29 | text order is right on all numbers below a bound if and only if the bound is at most 10^12 |
| Rank.PrefixSortsFirst | batch_projects/rank.py:24-29 | a text sorts before every longer one that begins with it, so an unset rank sorts first |
| Rank.MalformedIsZero | batch_projects/rank.py:32-55 | a rank that is not all digits counts as zero: nothing fits below it, and above it what fits in front |
| Rank.BetweenIsExact | batch_projects/rank.py:39-55 | a rank is found if and only if some number fits strictly between the neighbours, and the one found fits |
| Rank.RoomForSixteen | batch_projects/rank.py:39-55 | after a rebalance up to sixteen insertions between neighbours or in front, with any appends and removals among them, all find room and leave gaps of at least 2^(16-k) |
| Rank.SeventeenthNeedsRebalance | batch_projects/rank.py:39-55 | sixteen is exact: a run of seventeen insertions in front runs out of room |
| Rank.RunStaysOrdered | batch_projects/rank.py:39-64 | along such a run tasks and later appends stay in strict text order up to 15,258,789 of them together |
| Rank.RebalanceWidthIsExact | batch_projects/rank.py:92-99 | the ranks of a rebalance are strictly increasing as text if and only if there are at most 15,258,789 tasks |
| Rank.RebalanceMakesRoom | batch_projects/rank.py:92-99 | in a freshly re-spaced column there is room between two tasks if and only if they are in order, and always at both ends |
| Board.ColumnTable.RebalanceColumn | batch_projects/rank.py:92-99 | every task of the column gets the slot of its place in the (rank, creation) order, and no other rank moves |
| Board.ColumnTable.EndRank | batch_projects/rank.py:58-64 | one step behind the greatest rank of the column, or the first slot |
| Board.EndRankMeans | batch_projects/rank.py:58-64 | in numbers, 65536 behind the greatest rank of the column, an unset one counting as zero, and 65536 in an empty one |
| Board.ColumnTable.MoveTask | batch_projects/api/board.py:1387-1431 | unfinished blockers or a busy column refuse the move; else the dropped card takes a rank between its anchors if there is room, or the column is re-spaced once and it takes one then, or the end |
| Board.RebalanceKeepsOrder | batch_projects/rank.py:92-99 | re-spacing keeps the order of the board and leaves no ties |
| Board.DropAfterRebalanceIsBetween | batch_projects/api/board.py:1423-1431 | after the rebalance the drop between two tasks of the column succeeds strictly between them if and only if they are in order, so the end is used only for anchors out of order |
| TimesheetSync.HoursTable.SyncTaskActualHours | batch_projects/timesheet_sync.py:19-36 | the task takes the rounded sum of its submitted rows; a missing task changes nothing |
| TimesheetSync.SyncedMeans | batch_projects/timesheet_sync.py:19-36 | a sync stores whole hundredths within half a hundredth of the hours of the submitted rows |
| TimesheetSync.DriftMeans | batch_projects/timesheet_sync.py:56-106 | a task drifts exactly when its hours are more than 0.005 off those of its submitted rows |
| TimesheetSync.TasksOnMeans | batch_projects/timesheet_sync.py:128-139 | the tasks on a sheet are those its rows name |
| TimesheetSync.HoursTable.SubmitTimesheet | batch_projects/timesheet_sync.py:128-135 | exactly the tasks on the submitted sheet are resynced |
| TimesheetSync.HoursTable.CancelTimesheet | batch_projects/timesheet_sync.py:128-139 | exactly the tasks on the cancelled sheet are resynced |
| TimesheetSync.HoursTable.ReconcileActualHours | batch_projects/timesheet_sync.py:56-106 | a run repairs as many drifting tasks as the cap allows, whichever the query answers, touches no other, and returns how many fewer drift |
| TimesheetSync.RepairShrinksDrift | batch_projects/timesheet_sync.py:56-106 | a run repairs exactly min(500, n) of n drifting tasks and leaves the others untouched |
| TimesheetSync.RepairConverges | batch_projects/timesheet_sync.py:56-106 | with the timesheets unchanged no task drifts after i runs if and only if i is at least n/500 rounded up |
| TimesheetSync.NothingIsRepairedTwice | batch_projects/timesheet_sync.py:56-106 | a task that is right after some run is never touched by a later one |
| TimesheetSync.ResyncIsEnough | batch_projects/timesheet_sync.py:128-139 | after a submit or cancel the drifting tasks are those that drifted before, without the tasks on the sheet |
| Rounding.RoundsToNearest | batch_projects/timesheet_sync.py:35 | rounding moves a value by at most half a hundredth, so a synced task does not drift |
| Rounding.NoneIsNearer | batch_projects/timesheet_sync.py:35 | and no whole hundredth is nearer |
| Rounding.TieGoesToEven | batch_projects/timesheet_sync.py:35 | a tie goes to the even neighbour |
| Apportion.SalesInvoiceProjectWeights | batch_projects/erp_triggers.py:118-159 | distinct projects, exactly those with a line, each with its share of the attributed net, adding up to one; the header alone when the net is zero |
| Apportion.AttributedMeans | batch_projects/erp_triggers.py:118-159 | a project has a line when one names it, or names none and the header does |
| Apportion.Apportion | batch_projects/erp_triggers.py:162-179 | the amounts written are shares of which every one but the last is a rounded part and which together take the rounded total; a project named twice keeps the later one |
| Apportion.ApportionConserves | batch_projects/erp_triggers.py:162-179 | the amounts of distinct projects add up exactly to the rounded total |
| Apportion.ApportionIsClose | batch_projects/erp_triggers.py:162-179 | with shares that add up to one, negative ones included, every project but the last is within half a cent of its exact part and the last within (n-1)/2 cents |
| LastRun.RunRow.UpdateLastRunIfNewer | batch_projects/api/automation.py:1621-1648 | a report is stored exactly when the row is empty or not newer, and the status before it is answered |
| LastRun.EndsWithNewest | batch_projects/api/automation.py:1621-1648 | after any sequence of reports the row holds a newest one, so its timestamp is the maximum |
| LastRun.RedeliveryChangesNothing | batch_projects/api/automation.py:1621-1648 | any order and any number of deliveries of the same reports ends in the same row when the newest agree |
| LastRun.OrderIsIrrelevantIff | batch_projects/api/automation.py:1621-1648 | the final row is the same for every permutation if and only if the newest reports agree |
| TaskReports.MakeBuckets | batch_projects/task_aggregates.py:247-251 | consecutive weeks from the Monday of the first date, as many as begin no later than the last |
| TaskReports.WeekStartsOnMonday | batch_projects/task_aggregates.py:247-251 | the week of a date starts on the last Monday up to it |
| TaskReports.BucketHoldsItsDay | batch_projects/task_aggregates.py:253-256 | a date has a bucket exactly when the report covers it, it is the one week that holds it, and the clamp never acts |
| TaskReports.FillBuckets | batch_projects/task_aggregates.py:258-267 | each bucket is raised by the number of its dates |
| TaskReports.BucketsAddUp | batch_projects/task_aggregates.py:258-276 | the buckets add up to the number of dates the report covers |
| TaskReports.PercentileGrows | batch_projects/task_aggregates.py:278-285 | a percentile never falls when the percentage rises |
| TaskReports.PercentileWithin | batch_projects/task_aggregates.py:278-285 | it lies between the least and the greatest value and reaches them at 0 and 100 |
| TaskReports.QuantileInterpolates | batch_projects/task_aggregates.py:278-285 | at a rank between two places it lies the same part of the way between their values |
| TaskReports.StatusOn | batch_projects/task_aggregates.py:329-344 | None before the task's creation, else, on a sorted timeline, the outcome of the last transition on or before the day |
| TaskReports.Burndown | batch_projects/task_aggregates.py:370-394 | one entry per sprint day with its ideal points and what remains, nothing remaining for future days |
| TaskReports.IdealFallsToZero | batch_projects/task_aggregates.py:377 | the ideal line starts at all points, never rises and ends at none |
| TaskReports.IdealIsStraight | batch_projects/task_aggregates.py:377 | in between it is straight, to half a tenth |
| TaskReports.DayMeans | batch_projects/task_aggregates.py:378-394 | a day shows the points not done on it, to one decimal, and nothing when it is still to come |
| TaskReports.RemainingNeverRises | batch_projects/task_aggregates.py:378-391 | with points that are not negative the line never rises and stays between zero and the total |

## Left out

- NodeLedger.AtMostOneCommittedRun: requires one endpoint per key, because it is false otherwise (NodeLedger.CommitsOnceIffOneEndpoint).
- LeaseProtocol.TerminalIsFinalIff: stands for "a terminal execution never changes", which is false of the recovery scan.
- MilestoneBilling.MilestoneTable.Generate: does not model how the amount, currency and lines of the invoice come about.
- MilestoneProtocol.BudgetNeverExceeded: excludes runs with an outdated bulk repair; of those MilestoneRepairs.ExcessTakesBoth says when the budget is lost, and MilestoneProtocol.BooksKeptIffClean that the books are not kept.
- MilestoneClaims.BilledOnceIff: takes the milestone an invoice was drafted for as known; the invoice itself stores only the milestone's title and amount.
- MilestoneBilling.MilestoneTable.AssertPercentCapacity: rounds to three decimals, the default precision of a percentage, and does not model another configured precision.
- MilestoneProtocol.EffectStable: does not model the waits of the reservation read on sibling milestone rows; the project lock already serializes the reservations it protects.
- ReservationProtocol.DetailsAreExclusive: does not model which amounts ERPNext copies onto invoice lines, and treats stamping a submitted invoice onto its details as one write.
- LockOrder.NoDeadlock: covers the row locks of the two guards, not locks that ERPNext takes before or after them.
- ExpenseProtocol.SourcesAreExclusive: leaves amended expense invoices to ExpenseProtocol.SourcesAreExclusiveIff, and does not model which amounts an invoice line carries.
- Rank.ParseUndoesFmt: models ranks as digit strings; signs, blanks and underscores that Python's int() also reads count as malformed.
- Board.ColumnTable.MoveTask: takes whether blockers forbid the move and whether the column lock was granted as inputs; moves are taken one at a time.
- TaskInvariants.TaskTable.Save: models the parent and link checks; whether the authority, assignee, type, epic, milestone, sprint, approver and mention checks refuse is an input.
- TaskLifecycle.TrashTable.TrashTree: removes running timers but does not model the time rows written for them, nor the events sent after commit.
- TimesheetSync.HoursTable.ReconcileActualHours: does not model the log line with the worst drift.
- LastRun.RunRow.UpdateLastRunIfNewer: does not model that the database may report no changed row for an update with equal values.
- TaskReports.StatusOn: says what is answered on a timeline in day order, which is how the rows are read; cumulative flow counts it per status and is not modelled.
- WorkflowExecution.WorkflowTable.Admit: models the definition of a workflow by one number for its revision and hash; envelopes and payload shaping are not modelled.
- What `_execute` does for each kind of action, the node registry and its configuration.
- Network calls, e-mail, realtime events, caching and notifications.
- Roles, permissions and feature checks, which are settled by reading their branches.
- `bulk_delete_tasks`, which catches errors without a rollback, and concurrent saves of two linked tasks.
- Dashboards, analytics and the SQL that feeds them.
