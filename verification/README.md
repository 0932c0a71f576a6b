# Terrence: verified models of the control plane's core

Terrence runs Terraform and OpenTofu plans and applies for many workspaces, from one node or
from several that share a database. This project models the parts of it in which many
asynchronous tasks write the same rows and files, and the smaller algorithms with a precise
specification, and proves what they guarantee. `dafny verify dfyconfig.toml` checks all of it.

## What is modelled

**The run execution protocol** (`RunStatus`, `RunProtocol`, `RunSafety`, `RunTheorems`, `RunQueue`,
`RunStarts`, `RunLocks`, `RunLeases`, `RunProgress`, `RunExits`, `RunTraces`, `RunReplay`, `RunEnds`).
A transition system over run rows, workspace rows and local executions. One step is one awaited database statement or transaction, or the start of a
process; every function that reads in one await and writes in a later one is split
accordingly. Queue claims, operator actions, executors, lease contention and expiry, crashes
(an execution that takes no further step), recovery, lock sweeps on stale reads, user locks
and the clock interleave without restriction. The results hold for every initial state and
every sequence of steps. They are proved from one inductive invariant, split into what an
execution keeps about its own rows and a frame condition it owes to everybody else's. Beside what
never happens they say what can: from any state a claimable run can be carried through to
`applied`, an idle system's whole queue can be drained, and an interrupted run can be recovered.

| step | code |
|---|---|
| `Claim` | backend/src/worker.ts:6647-6899 |
| `ChangeRun` with `RevertClaim`, `RevertSchedule`, `RejectSchedule` | backend/src/worker.ts:6868-6879, 7149-7203 |
| `LaunchApply`, other `ChangeRun` | backend/src/worker.ts:7149-7189 and the run routes, backend/src/routes/runs.ts |
| `ChangeRun` with `ErrorUnguarded` | backend/src/lib/webhooks.ts:3458-3486, called from backend/src/worker.ts:3318-3328 |
| `AcquireLease`, `RenewLease`, `ReleaseLease`, `ClearExpired` | backend/src/lib/execution-lease.ts:201-500 |
| `DropLease` | backend/src/lib/execution-lease.ts:591-634 |
| `LeaseBusy` | backend/src/worker.ts:2384-2410 |
| `Load` | backend/src/worker.ts:2490-2535, 4110-4136 |
| `Publish` | backend/src/worker.ts:872-918 |
| `RejectPlan`, `Fence` | backend/src/worker.ts:3251-3303, 2424-2466, 2806-2838 |
| `AcquireLock`, `ReleaseLock`, `Defer` | backend/src/worker.ts:2862-2901, 2974-3005, 4138-4161 |
| `SpawnPlan`, `Spawn`, `StoreFailed` | backend/src/worker.ts:626-662, 4287-4330, 4628-4699 |
| `StartRecovery`, `Requeue` | backend/src/worker.ts:7735-7857 |
| `SweepRead`, `SweepWrite` | backend/src/worker.ts:7967-8015 |

**Machines of the same worker.** `ApplyRecovery` follows the state file of a started apply through
every exit, save, capture and cleanup path, with a cancel, a failure, the removal timer
or the unguarded errored write at any await. `QueueScan` and `AutoDestroy`
are the keyset-paged scans over tables that change while they are scanned. `Assessments` is
the epoch-fenced assessment queue, `SavedPlans` the two-rename plan store, `KillEscalation` the
SIGINT-then-SIGKILL timers, `SchedulerGenerations` the coordinator's poll cycles, and `Variables`
the variable and environment precedence.

**Other cores.** `RateLimiter` is the fixed-window context, `TerraformLogin` the OAuth handshake,
`LockfileScanner` the trailing-comma scanner together with a JSON parser to say what it is for
(`JsonLexemes` gives the parser's lexical grammar),
and `Versions` the version order and constraint search. `Text` and `Options` are shared helpers.

Classes stand where the source has module-level maps and counters that its functions update;
functions and datatypes where it computes. Methods carry their whole effect as a contract.

## Where the code does not meet its promise

* A run starts one apply process. A further one is started exactly after an outcome that a live
  executor could not store and then a deferral that puts the applying run back to `confirmed`
  (`ProcessesStartedExactly`, `ProcessesSpawnedOnce`, `RunsAreRarelyReopened`). It is reachable (`LostOutcomeCanRepeatApply`): the lock is released, a
  second dispatch loads the run as `applying`, a user has the lock, and the dispatch defers.
* A run that ended can change its status: the configuration-archive wait of a plan marks every run
  of a configuration version errored when the download fails, without looking at any status or
  lease. `EndIsKept` and `EndedRunsStayEnded` give the status of an ended run after every step and
  every run of the system, this write being the one exception besides the forced cancel;
  `AppliedRunCanError` and `CanceledRunCanError` reach it.
* A live apply inside the locked section can lose the workspace lock: a reconciler that decided
  before the apply took it releases it. That is the only way (`LockIsLostExactly`,
  `LockNamesRunExactly`), it is reachable (`LateSweepTakesLock`), and it hits only an apply that
  loaded an ended run, which changes nothing (`DoomedApplyIsInert`).
* A second ordinary run can occupy a workspace's queue, exactly when an executor acts on a run
  that went back to `pending` while another run occupies it (`SecondOccupantExactly`,
  `QueueCanBeJumped`): entering a plan and deferring an apply bypass the claim's guard.
* The state of a started apply is lost in exactly three ways (`ExecuteApply`). One is the removal
  timer: it fires before the state was read, or while it is held in memory and the save then fails.
  A cancel arms it (`CancelTimerLosesState`), but so does the plan's own cleanup when it fails,
  without any cancel (`PlanCleanupLosesState`). The second is the one read of the run's status after
  the process exits: if it throws, nothing is saved and the cleanup removes the directory
  (`FailedReadLosesState`); of all single failures it is the only one that loses the state. The third
  is a cancel that does not last: the save finds the run canceled and leaves the state to the capture, the unguarded errored write overwrites the cancel,
  and the read that would call for the capture sees none (`OverwrittenCancelLosesState`). Recovery
  loses it exactly if it acts on a page read that still said `apply_queued` (`ErrorInterruptedRun`),
  and it does not look at the preserved directories.
* Running assessments exceed their limit exactly by a claim made at the limit in an epoch that its
  poll did not count in (`LimitExceededExactly`, `LimitKeptExactly`, `StaleCountExceedsLimit`): the
  claim reads the epoch anew, the count is not taken again.
* Auto-destroy runs are spaced, single and once per schedule exactly if no poll inserts on facts
  older than another poll's insertion and no poll reads a schedule that has fired
  (`PromiseKeptExactly`). Two nodes that poll at once around a change of leader break the first
  (`TwoLeadersDestroyTwice`); an update of other workspace settings that read its row before the
  schedule fired writes it back and breaks the second (`WrittenBackStampFiresTwice`).
* A poller stops for good exactly when its cycle is checked during a node drain
  (`OneCyclePerPoller`); a drain that is canceled while the node still leads can leave the
  scheduler without any poller (`CanceledDrainStopsPolling`).
* `~> X.Y.Z` admits pre-releases of X.(Y+1).0 (`ConstraintMeans`), since a pre-release sorts below its release.

## Model

| member | source | states |
|---|---|---|
| RunTheorems.ProcessesSpawnedOnce | backend/src/worker.ts:4287-4330 | over every run of the system, a run's apply processes number at most one more than its lost outcomes, and at most one more than the deferrals that reopened it while applying; its plan processes at most one more than its re-queues from apply_queued |
| RunTheorems.OutcomesAreRarelyLost | backend/src/worker.ts:4628-4699 | an outcome counts as lost exactly when a started, live executor of a run that is not over cannot store it |
| RunTheorems.RunsAreRarelyReopened | backend/src/worker.ts:2993-3004 | a run is reopened exactly by a live executor that could not take the lock, loaded the run as applying and finds it so |
| RunStarts.ProcessesStartedExactly | backend/src/worker.ts:4287-4330 | over every run of the system and every n: the apply process is started more than n times if and only if the steps contain, in this order, a start and n times a lost outcome, a reopening deferral and another start |
| RunStarts.StaysShut | backend/src/lib/run-status.ts:101-168 | once a run is applying or over and nobody is on the way to a process, only a reopening deferral changes that |
| RunStarts.LoseShuts | backend/src/worker.ts:4628-4699 | the executor that loses an outcome was the only live one, and nobody else is on the way to a process |
| RunTheorems.OneLiveExecution | backend/src/lib/execution-lease.ts:201-301 | no two executions with a live lease share a workspace |
| RunTheorems.LockNamesRun | backend/src/worker.ts:2862-2901 | a live executor anywhere between taking and releasing the lock finds its run named by it, unless it loaded an ended run |
| RunLocks.LockIsLostExactly | backend/src/worker.ts:8000-8013 | an executor inside the locked section with a live lease and the lock loses it there exactly by a reconciler's late release, and then loaded an ended run |
| RunLocks.LockNamesRunExactly | backend/src/worker.ts:7967-8015 | over whole runs: at every moment whoever is inside with a live lease has the lock, exactly if no reconciler releases the lock of one that is inside |
| RunLocks.LateSweepTakesLock | backend/src/worker.ts:7967-8015 | a reachable state in which a live executor inside the section has lost the lock |
| RunTheorems.DoomedApplyIsInert | backend/src/worker.ts:4110-4161 | an apply that loaded an ended run writes no status and starts nothing before it gives the lock up |
| RunTheorems.UserLockIsKept | backend/src/worker.ts:2862-2878 | no step but the user's own unlock changes a user's lock |
| RunTheorems.UserLockOutlastsRuns | backend/src/worker.ts:7967-8015 | over whole runs a user's lock stays until the user unlocks |
| RunTheorems.EndIsKept | backend/src/worker.ts:2429-2466 | what each step makes of a canceled, force-canceled, applied, errored or discarded run: a forced cancel moves a canceled one, the unguarded errored write moves any, no other modelled writer moves one |
| RunTheorems.EndedRunsStayEnded | backend/src/lib/run-status.ts:101-168 | over whole runs, a run that has ended keeps that status, exactly up to the forced cancel and the unguarded errored write |
| RunEnds.AppliedRunCanError | backend/src/lib/webhooks.ts:3458-3486 | a reachable applied run that is marked errored afterwards |
| RunEnds.CanceledRunCanError | backend/src/lib/webhooks.ts:1955-1959 | a reachable canceled run that is marked errored afterwards |
| RunTheorems.StatusesFollowTable | backend/src/lib/run-status.ts:101-168 | in every reachable state each status write of a modelled writer is an edge of the table or one of the named reverts, deferrals and operator moves, except exactly the unguarded errored write on a run that ended otherwise |
| RunSafety.EntryStepOk | backend/src/worker.ts:2384-2410 | contention reverts, loading and the auto-apply hand-over keep the invariant and owe others the frame |
| RunSafety.LeaseStepOk | backend/src/lib/execution-lease.ts:303-366 | claiming, renewing and releasing a lease keep the run's and the workspace's copies in step; what they are good for is stated by the `RunLeases` rows |
| RunSafety.PublishWriteOk | backend/src/worker.ts:872-918 | a fenced, legal status write keeps ended runs ended and the process counts accounted for |
| RunSafety.WriteStepOk | backend/src/worker.ts:3280-3290 | policy rejection, both error fences, requeue and deferral keep the invariant |
| RunSafety.LockStepOk | backend/src/worker.ts:2862-2901 | taking and releasing the workspace lock keep the invariant, with the lock row a dead executor left behind as its witness |
| RunSafety.ProcessStepOk | backend/src/worker.ts:626-662 | starting a process or losing an outcome keeps the counts bounded |
| RunSafety.ExecStepOk | backend/src/worker.ts:4628-4699 | every executor step keeps the invariant and the frame |
| RunSafety.OtherExecOfRun | backend/src/lib/execution-lease.ts:167-200 | another execution of the run stays safe when its rows change under it |
| RunSafety.OtherExecOfSpace | backend/src/worker.ts:2862-2901 | an execution of another run of the workspace stays safe |
| RunSafety.OtherRunOfSpace | backend/src/lib/execution-lease.ts:201-301 | another run of the workspace keeps its lease and lock facts |
| RunSafety.InstallKeepsInv | backend/src/worker.ts:2413-2487 | one execution's step keeps the invariant of the whole system |
| RunSafety.ChangeKeepsInv | backend/src/worker.ts:6868-6879 | every operator and poller write keeps the invariant |
| RunSafety.RunStepsKeepInv | backend/src/worker.ts:7149-7203 | claims, operator writes, launches and recovery reads keep the invariant |
| RunSafety.SweepReadKeepsInv | backend/src/worker.ts:7967-8003 | a reconciler's decision from page reads and an old clock value stays sound |
| RunSafety.SweepWriteKeepsInv | backend/src/worker.ts:8003-8015 | acting on that decision later takes no lock from a live apply that can still do something |
| RunSafety.ClearExpiredKeepsInv | backend/src/lib/execution-lease.ts:386-455 | clearing an expired lease clears no newer one |
| RunSafety.ExecuteKeepsInv | backend/src/worker.ts:8073-8135 | the invariant holds over every sequence of steps |
| RunLeases.LeaseIsGrantedExactly | backend/src/lib/execution-lease.ts:201-301 | in every reachable state a dispatched execution is granted the lease, on both rows until the expiry asked for, if and only if the workspace's row shows no unexpired one |
| RunLeases.RenewalLasts | backend/src/lib/execution-lease.ts:315-366 | after a renewal by an execution that is live on both rows it is live on both at every clock reading before the new expiry |
| RunLeases.LeaseLastsExactly | backend/src/lib/execution-lease.ts:303-366 | over every run of the system, whatever everybody else does: the holder of a lease is live at every moment if and only if the clock stays below the expiry its last renewal set and it does not give the lease up itself |
| RunProgress.ClaimSucceedsExactly | backend/src/worker.ts:6857-6899 | a claim succeeds exactly for a pending run that is speculative or saves its plan, or while no ordinary run of the workspace is under way |
| RunProgress.ClaimableRunCanBeApplied | backend/src/worker.ts:4110-4161 | from any state whatever, a claimable run in a free workspace can be claimed, planned and applied; it then has one plan and one apply process more, lock and lease are given back, and nothing else has changed |
| RunProgress.QueueCanDrain | backend/src/worker.ts:6938-6997 | from every idle state there is a way on which every waiting run of every workspace is applied, each with one process of each kind, and every other run stays as it is |
| RunExits.PlanPhaseEndsOnly | backend/src/worker.ts:2490-2562 | a plan starts with the loading of a run that is not over, and its execution stays in it until it is done or becomes the run's apply |
| RunExits.LockedSectionEndsOnly | backend/src/worker.ts:2862-2901 | whoever took the lock stays inside until it gives it back, or gives up doing so after settling |
| RunExits.LockedSectionBegins | backend/src/worker.ts:2862-2878 | the section is entered exactly with a live lease on the workspace and its lock free, and the lock then names the run |
| RunExits.LockIsReleasedExactly | backend/src/worker.ts:2880-2901 | the lock is given back exactly by the apply that holds it with a good lease and has settled, or by the recovery of a run found queued for its apply or applying |
| RunExits.FenceWritesExactly | backend/src/worker.ts:2424-2466 | the error fence errors a run exactly for a live execution that threw, a plan at any stage unless the run is over or its plan has a verdict, an apply unless the run is over |
| RunExits.RejectionWritesExactly | backend/src/worker.ts:3280-3290 | the executor policy's rejection errors exactly the run that is still as it was loaded |
| RunExits.PublishesExactly | backend/src/worker.ts:872-918 | a publication writes the status exactly if the execution has that to say at its stage or an error to report, its lease is good and the edge is legal; it writes nothing else of the rows |
| RunExits.ErrorsLeadOn | backend/src/worker.ts:3280-3303 | the stage an execution goes on to after it has reported an error |
| RunExits.EveryExecutionCanEnd | backend/src/worker.ts:2413-2487 | wherever an execution stands it can wind down by itself: it gives back lock and lease, if they are its own, and the run keeps its status |
| RunExits.LoadLeadsOn | backend/src/worker.ts:4110-4136 | loading its run, a plan enters unless the run is over, an apply goes on unless it was canceled |
| RunExits.RequeueWritesExactly | backend/src/worker.ts:7735-7780 | only recovery requeues, and only a run that is as it was read and whose lease it has |
| RunExits.StartedApplySettlesExactly | backend/src/worker.ts:4628-4699 | a started apply settles without an outcome exactly if its run was canceled, its lease is lost or an error may not be written any more |
| RunExits.OperatorsWriteExactly | backend/src/routes/runs.ts:3644-3790 | which runs each write of an operator or a poller changes, and to what; nothing else changes |
| RunExits.AppliesAreDispatchedExactly | backend/src/worker.ts:7149-7189 | an apply is dispatched exactly for a planned run that is applied or a confirmed one that is due and not speculative |
| RunExits.BusyHandsBack | backend/src/worker.ts:2384-2410 | an execution that finds the lease taken hands back exactly a run that nobody owns, and goes |
| RunExits.DeferralHandsBack | backend/src/worker.ts:2993-3004 | a deferral confirms exactly the run that is as it was loaded and not over |
| RunExits.ExpiredLeaseIsCleared | backend/src/lib/execution-lease.ts:386-455 | an expired lease is cleared from both rows that still name it, and no other |
| RunExits.LeftLockIsReleased | backend/src/worker.ts:7967-8015 | a reconciler finds and releases the lock that the execution of an ended run left behind, and changes nothing else |
| RunExits.RecoveryStartsExactly | backend/src/worker.ts:7735-7750 | recovery is dispatched exactly for a run in an interrupted status |
| RunExits.InterruptedRunCanBeRecovered | backend/src/worker.ts:7735-7857 | from any state whatever, an interrupted run whose leases have expired can be recovered, and nothing else changes |
| RunExits.RecoveredMeans | backend/src/worker.ts:7781-7857 | it is requeued where no side effect can have happened and errored otherwise, without a lease and, after an apply, without the lock |
| RunStatus.TableMeans | backend/src/lib/run-status.ts:101-157 | an edge is legal if and only if the table of targets has it |
| RunStatus.TerminalMeans | backend/src/lib/run-status.ts:101-157 | the terminal statuses are those without any edge; a status cannot be interrupted exactly if it is terminal or canceled |
| RunQueue.EntersByExec | backend/src/worker.ts:2974-3005 | an executor brings a waiting ordinary run into a blocking status exactly by acting on a pending row |
| RunQueue.EntersBySystem | backend/src/worker.ts:6647-6673 | outside executors only a claim with an empty queue does |
| RunQueue.SecondOccupantExactly | backend/src/worker.ts:6857-6899 | a step gives a workspace a second occupant exactly if it jumps the queue |
| RunQueue.OneOccupantExactly | backend/src/worker.ts:7735-7750 | over whole runs: one occupant at every moment exactly if no step jumps the queue |
| RunTraces.QueueCanBeJumped | backend/src/worker.ts:2490-2562 | a reachable state with two occupants, through a requeue before a late executor's entry |
| RunReplay.LostOutcomeCanRepeatApply | backend/src/worker.ts:2974-3005 | a reachable second apply process after one lost outcome |
| ApplyRecovery.ApplyExecution.Await | backend/src/worker.ts:313-334 | what one await may change: a cancel of a run that is not over, the unguarded errored write over any status, the armed removal timer, a throw; the state is lost there only by the timer, whoever armed it |
| ApplyRecovery.ApplyExecution.SaveStateVersion | backend/src/worker.ts:3947-4002 | a save that returns normally, of a run that is not canceled, has the state in a state version; it throws only if one of its awaits does, so with nothing but cancels ahead it saves; of a run found canceled it saves nothing |
| ApplyRecovery.ApplyExecution.CaptureState | backend/src/lib/recovery-files.ts:698-717 | a capture copies the state, fails, or finds no file; with nothing but cancels ahead it does not fail |
| ApplyRecovery.ApplyExecution.SpawnAndWait | backend/src/worker.ts:4287-4330 | a process is recorded as started before it can leave a state file, and its outcome accounts for the file |
| ApplyRecovery.ApplyExecution.CompleteApply | backend/src/worker.ts:4475-4493 | a canceled or errored run is never marked applied; with nothing but cancels ahead it is marked applied unless one of them comes first |
| ApplyRecovery.ApplyExecution.WaitForExit | backend/src/worker.ts:4320-4420 | every exit reports an outcome that accounts for the state: saved, captured, failed to capture, or left alone as the run was canceled; or the status read threw |
| ApplyRecovery.ApplyExecution.HandleFailure | backend/src/worker.ts:4532-4543 | after a throw the state of a run that this read finds canceled is captured; what was unattended or left alone stays so if the read throws or shows no cancel; with nothing but cancels ahead an applying run ends errored or canceled, a canceled one with its state captured |
| ApplyRecovery.ApplyExecution.RunSequence | backend/src/worker.ts:4422-4522 | success means applied, with the state saved or swept by the timer; any other return or throw accounts for the state, has left it alone for a cancel, or has left it unattended |
| ApplyRecovery.ApplyExecution.FinalizeWorkDir | backend/src/worker.ts:4556-4626 | the directory goes only if the state is elsewhere, unattended or left alone; after a failed capture it is marked to be spared |
| ApplyRecovery.ApplyExecution.ExecuteApply | backend/src/worker.ts:4628-4699 | the state is lost, or left to a scheduled removal, if and only if the removal timer beat the save, the deciding status read threw with nothing else taking care of it, or the save was skipped for a cancel that the last read no longer shows; without an armed timer or a cancel there is no loss to the timer, and an applied run has its state saved unless the timer was first; with nothing but cancels happening, however many and whenever, the state of a process that ran is saved or captured, without a cancel it is saved, the run ends applied exactly if the apply succeeded, errored if it failed and canceled if it was, and the directory goes; if moreover one await throws and nobody cancels, the state is lost exactly if that is the status read after the process's exit |
| ApplyRecovery.SettledFromExactly | backend/src/worker.ts:313-334 | what it means that nothing but cancels happens from some await on |
| ApplyRecovery.OneFailureExactly | backend/src/worker.ts:313-334 | what it means that besides cancels one await at most throws |
| ApplyRecovery.UndisturbedApply | backend/src/worker.ts:4422-4522 | when nothing happens at all, a successful, failed, simulated or refused apply leaves its state saved and the run applied or errored accordingly |
| ApplyRecovery.ApplyExecution.CleanupPlanWorkDir | backend/src/worker.ts:2705-2717 | after an apply that has not left its state alone it loses nothing; when it fails it arms the removal timer |
| ApplyRecovery.ApplyExecution.Restart | backend/src/worker.ts:351-366 | the set of preserved directories and the timers do not outlive the process |
| ApplyRecovery.ApplyExecution.ErrorInterruptedRun | backend/src/worker.ts:7781-7812 | recovery, after a restart or on a live node, loses the state if and only if the timer does or it read another status than applying and its removal succeeds; with nothing but cancels happening, a run read as applying has its state captured, and an applying run ends errored with its directory removed, or canceled |
| ApplyRecovery.CancelTimerLosesState | backend/src/routes/runs.ts:3739-3742 | an apply whose state is removed by the timer that a cancel armed |
| ApplyRecovery.PlanCleanupLosesState | backend/src/worker.ts:2705-2717 | an apply whose state is removed without any cancel, by the timer that a failed plan cleanup armed |
| ApplyRecovery.FailedReadLosesState | backend/src/worker.ts:4362-4372 | an apply whose state is removed by its own cleanup after the status read threw |
| ApplyRecovery.OverwrittenCancelLosesState | backend/src/lib/webhooks.ts:3458-3486 | an apply whose state is removed by its own cleanup after the errored write has overwritten the cancel that made the save stop |
| QueueScan.PageIsNext | backend/src/worker.ts:6960-6971 | a page holds the next pending runs beyond the cursor, in order, without gaps |
| QueueScan.QueueOrderMeans | backend/src/worker.ts:6960-6971 | the queue's order is by age and then by id, and a cursor has passed exactly what is not after it |
| QueueScan.QueuePoller.ExaminePage | backend/src/worker.ts:6983-6993 | examines a prefix of the page and stops short only at the claim limit |
| QueueScan.QueuePoller.Poll | backend/src/worker.ts:6938-6997 | a poll examines in strictly increasing order, skips nothing that stayed pending, respects the claim limit, and examines a run or wraps; unless it reached its claim limit or its page budget, it leaves nothing beyond its cursor; every page but the last is full, and it wraps exactly on an empty one |
| QueueScan.ProgressJoins | backend/src/worker.ts:6955-6959 | consecutive stretches of a scan add up to one, although the pending set changed in between |
| QueueScan.PassExaminesOnce | backend/src/worker.ts:6945-6947 | between two wraps examined keys increase and a run pending throughout is examined exactly once |
| QueueScan.PassEnds | backend/src/worker.ts:6972-6977 | without insertions a pass over N runs ends within N + 1 polls |
| AutoDestroy.PageIsNext | backend/src/worker.ts:5589-5611 | a page query with a shrinking filter returns the next rows of the open workspaces |
| AutoDestroy.ScanOrderMeans | backend/src/worker.ts:5515-5583 | the scans run newest first, by age and then by id, the one over runs workspace by workspace |
| AutoDestroy.LatestPerSpace | backend/src/worker.ts:5515-5583 | while rows come and go between pages: the scan returns for each workspace one of its rows, at least as new as every row that is there throughout |
| AutoDestroy.RunFacts | backend/src/worker.ts:5585-5632 | while runs are created and end between pages: a workspace is returned as active if a run is active throughout and only if one was active at some page; of the others, the attempt returned is at least as new as every attempt that is there throughout |
| AutoDestroy.ProcessWorkspace | backend/src/worker.ts:5680-5699 | in tables that stand still the decision is the declarative one: a due stamp, or the duration passed since creation, every state and every attempt; while they change, no run is decided on past a run active throughout or, for inactivity, past a recent state or attempt that is there throughout |
| AutoDestroy.PollDestroysExactly | backend/src/worker.ts:5650-5738 | over any history, a poll creates an auto-destroy run if and only if the workspace as it read it and the tables at its second read call for one, by a schedule that has come or by inactivity since creation, states and attempts; and what it then writes |
| AutoDestroy.SettingsAreRead | backend/src/worker.ts:5650-5679 | the schedule, the lock and the duration that users set are what the next poll reads |
| AutoDestroy.ActivityIsSeen | backend/src/worker.ts:5585-5632 | states saved, runs started and runs ended are in the tables that the next poll reads |
| AutoDestroy.PromiseBrokenExactly | backend/src/worker.ts:5650-5699 | a step breaks the spacing, the single run or the once-per-schedule rule if and only if it is an insertion past an unseen active or recent run, or for a schedule that has fired |
| AutoDestroy.PromiseKeptExactly | backend/src/worker.ts:5720-5738 | over any history of interleaved polls of several nodes the rules hold at every moment if and only if no insertion clashes so |
| AutoDestroy.DestroysAreSpaced | backend/src/worker.ts:5650-5738 | with one poll at a time and no fired schedule written back, inactivity runs are spaced by the duration, a schedule fires once, and two auto-destroy runs are never active together, whatever changes between a poll's reads and its insertion |
| AutoDestroy.TwoLeadersDestroyTwice | backend/src/worker.ts:5720-5738 | two overlapping polls leave two auto-destroy runs under way |
| AutoDestroy.WrittenBackStampFiresTwice | backend/src/routes/workspaces.ts:3379-3380 | a schedule written back from an older row fires again |
| Assessments.RunningIsBounded | backend/src/worker.ts:6464-6528 | rows in running exceed the limit at most by the claims made in an epoch that their poll did not count in, leading or not |
| Assessments.LimitExceededExactly | backend/src/worker.ts:6464-6491 | a step takes the running rows above the limit if and only if it is a claim past its fence, at the limit, by a poll that counted in another epoch or while its node led nothing |
| Assessments.LimitKeptExactly | backend/src/worker.ts:6493-6528 | over whole runs the limit is kept at every moment if and only if there is no such claim |
| Assessments.StaleCountExceedsLimit | backend/src/worker.ts:6464-6491 | two assessments can run under a limit of one after the lease went away and came back |
| Assessments.OneOutcome | backend/src/worker.ts:5894-5907 | each assessment gets at most one outcome, which stays, and no executor publishes in another epoch than its own |
| Assessments.OutcomeArisesExactly | backend/src/worker.ts:5894-5907 | an outcome is recorded and the status written if and only if the executor has the live lease of its epoch while the assessment runs, a user cancels before its end, or a new coordinator finds it running |
| Assessments.ClaimIsMadeExactly | backend/src/worker.ts:6493-6528 | a claim is made exactly for a pending assessment by a poll with claims left whose node has the live lease of the epoch it leads in |
| Assessments.NextPollCounts | backend/src/worker.ts:6464-6491 | a poll that starts after the last one has ended counts what runs by then, and notes the epoch its node leads in, if any |
| Assessments.NoticedNodeClaimsNothing | backend/src/worker.ts:6493-6528 | a node that has noticed the loss of its lease claims nothing |
| Assessments.PollFillsLimit | backend/src/worker.ts:6464-6528 | a poll of the leading node starts as many waiting assessments as the limit has room for, and touches no other |
| Assessments.ClaimedAssessmentIsSettled | backend/src/worker.ts:5894-5907 | a claimed assessment gets the outcome its executor publishes, whatever else happens while the lease lasts, unless somebody else settles it first |
| SavedPlans.RestoreYieldsAPlanning | backend/src/worker.ts:376-468 | over all interleavings of plannings, crashes and torn files, a restore yields nothing, fails, or yields the bytes one planning hashed, with its metadata |
| SavedPlans.AppliedPlanIsCurrent | backend/src/worker.ts:3115-3219 | an apply that passes the restore stage uses a planning of its configuration version made against the current state |
| SavedPlans.FinishedPlanIsApplied | backend/src/worker.ts:376-468 | a planning whose four steps are done, with nobody aborting it or touching its files, is restored with its bytes, and an apply accepts it if and only if configuration version, state id and serial are those of the planning |
| SavedPlans.CrashPoints | backend/src/worker.ts:397-415 | what is restored after a crash at each point of a planning over an earlier plan |
| SavedPlans.DamageIsFound | backend/src/worker.ts:417-468 | after a cleanup nothing is restored, torn metadata fails, and of a torn plan only what hashes like the planned bytes is restored |
| SavedPlans.AbortStops | backend/src/worker.ts:376-415 | an aborted planning writes nothing any more |
| KillEscalation.TimerAfterUnregister | backend/src/worker.ts:568-575 | a fired timer leaves no empty inner map and touches no other group |
| KillEscalation.RunProcesses.Interrupt | backend/src/worker.ts:565-580 | an interrupted group has its timer, the one it had if it had one |
| KillEscalation.RunProcesses.KillWaiting | backend/src/worker.ts:739-742 | every waiting group of the run is killed and its timer cleared; other groups keep theirs |
| KillEscalation.RunProcesses.Track | backend/src/worker.ts:664-680 | a child joins its run's set and nothing else changes |
| KillEscalation.RunProcesses.Cancel | backend/src/worker.ts:731-764 | the last signal of every group afterwards: a plain cancel interrupts the tracked groups and keeps armed timers, a forced one kills the tracked and the waiting groups and leaves no timer |
| KillEscalation.RunProcesses.Fire | backend/src/worker.ts:565-580 | the timer unregisters itself and kills its group |
| KillEscalation.RunProcesses.Exited | backend/src/worker.ts:680-691 | the child leaves the run's tracked set and nothing else changes; timers stay |
| KillEscalation.RunProcesses.InterruptedGroupIsWatched | backend/src/worker.ts:721-728 | a group whose last signal was SIGINT has exactly one armed timer, and its run counts as active |
| KillEscalation.RunProcesses.RunWithTimers | backend/src/worker.ts:551-580 | a run has timers exactly while a group of it waits for its SIGKILL |
| KillEscalation.RunProcesses.PrepareCgroup | backend/src/worker.ts:616-620 | the run, and no other besides those before, counts as active |
| KillEscalation.RunProcesses.CleanupCgroup | backend/src/worker.ts:784-788 | a run with a group waiting for its SIGKILL stays active |
| KillEscalation.CanceledRunStaysActive | backend/src/worker.ts:721-728 | a canceled run without process, cgroup or execution still counts as active until the timer has killed its group |
| SchedulerGenerations.Scheduler.StartCoordinator | backend/src/worker.ts:8160-8269 | a new generation starts each cycle once, or nothing happens |
| SchedulerGenerations.Scheduler.StopCoordinator | backend/src/worker.ts:7317-7321 | stopping ends the generation once |
| SchedulerGenerations.Scheduler.Finish | backend/src/worker.ts:8216-8230 | a body that ends arms its next cycle in its own generation only |
| SchedulerGenerations.Scheduler.Fire | backend/src/worker.ts:8172-8178 | a timer of an older generation starts no body |
| SchedulerGenerations.Scheduler.OneCyclePerPoller | backend/src/worker.ts:7317-7333 | at most one timer or body per poller and generation; of the current one, exactly one if and only if the poller's cycle was not checked during a drain; and no body of an older generation ever started |
| SchedulerGenerations.CanceledDrainStopsPolling | backend/src/lib/node-drain.ts:229-250 | a canceled drain can leave a running scheduler without pollers |
| Variables.SetsAreTotallyOrdered | backend/src/lib/variable-set-precedence.ts:19-41 | different sets never tie, the order is transitive, and priority sets are above all others; which set is above which is stated by `SetsCompareByPrecedence` |
| Variables.SetsCompareByPrecedence | backend/src/lib/variable-set-precedence.ts:14-41 | a set is overlaid by another exactly if only the other has priority; or, of ordinary sets, if it is global and the other is not, the organization's and the other the project's, or of one owner and only it reaches the workspace through its project; of priority sets the other way round; of equals, if the other's name and then id comes first |
| Variables.CodePointsCompareExactly | backend/src/lib/variable-set-precedence.ts:47-56 | the comparison of strings is the lexicographic order of their code points |
| Variables.Overlay | backend/src/worker.ts:1798-1835 | one overlay loop: later entries win, earlier ones keep their place |
| Variables.ExecutionVariables | backend/src/worker.ts:1781-1838 | the three overlay loops give each key, once, its priority-set entry, else its workspace variable, else its ordinary-set entry |
| Variables.WinningSetIsHighest | backend/src/worker.ts:1774-1779 | the entry that wins among sets of a kind belongs to the highest set that has the key |
| Variables.EffectiveMeans | backend/src/worker.ts:1781-1838 | a key gets the value of the highest priority set that has it, else the workspace's own, else that of the highest ordinary set, else none; only a priority set's value is marked as one |
| Variables.BuildSanitizedEnv | backend/src/worker.ts:1629-1672 | extra values over the last written variable over the process's allowed names |
| Variables.WritesExactly | backend/src/worker.ts:1654-1664 | an environment variable sets its own name, a sensitive Terraform variable the prefixed one, and a key that spells a protected name, in any case, sets nothing |
| Variables.LayerMeans | backend/src/worker.ts:1687-1694 | a layer's value for a name is that of its last variable that sets it: of all variables, of the environment's, or of those with priority |
| Variables.BuildRunPhaseEnv | backend/src/worker.ts:1678-1697 | each name comes from the highest layer among phase, priority sets, run, workspace and process; protected names only from phase or process |
| Variables.LoadersAreNotInherited | backend/src/worker.ts:1638-1658 | what loaders and shells run at a start comes from no variable and not from the worker's own process |
| RateLimiter.TalliesGrow | backend/src/app.ts:593-672 | a window's counts remain the requests less refunds of the log since it started |
| RateLimiter.FixedWindowContext.ValidDuration | backend/src/app.ts:604-605 | the requested duration exactly if it is a positive number, else the default; always positive |
| RateLimiter.FixedWindowContext.Init | backend/src/app.ts:628-633 | initialization forgets all windows and takes the default duration if valid |
| RateLimiter.FixedWindowContext.ResetAll | backend/src/app.ts:661-668 | a reset without a key restarts every window, empty |
| RateLimiter.FixedWindowContext.Increment | backend/src/app.ts:634-641 | counts a request in its duration's window, restarted if due, and touches no other |
| RateLimiter.FixedWindowContext.Decrement | backend/src/app.ts:642-656 | refunds exactly if one window counts the key; a count never goes negative |
| RateLimiter.FixedWindowContext.ResetKey | backend/src/app.ts:657-660 | forgets the key in every window and nothing else |
| RateLimiter.AtMostTwiceMax | backend/src/app.ts:608-626 | requests within one duration of each other have at most twice the maximum of a key accepted |
| RateLimiter.TwiceMaxIsReached | backend/src/app.ts:608-626 | the bound is met |
| TerraformLogin.OneTokenPerCode | backend/src/oauth.ts:360-399 | each authorization code yields at most one token (section 4.1.2 of RFC 6749) |
| TerraformLogin.ApprovedLoginYieldsToken | backend/src/oauth.ts:212-399 | an approval whose password hash is still the user's, of a user who is neither blocked nor has to change the password, yields exactly one token for that user and code, if code and user are left alone and a peek and a redemption with the approved redirect URI and challenge come before the expiry, whatever else happens in between |
| TerraformLogin.LoginYieldsToken | backend/src/oauth.ts:360-399 | the same from any live code on |
| TerraformLogin.CodeIsMintedExactly | backend/src/oauth.ts:212-241 | a code is minted exactly for an approval whose session is still the user's, of a user who may log in |
| TerraformLogin.CodeIsMinted | backend/src/oauth.ts:225-235 | an approved request gets a code for the session's user, challenge and redirect URI, good for the whole lifetime, although anything else may happen between session and approval |
| TerraformLogin.RequestIsResumed | backend/src/oauth.ts:295-358 | a stashed request is resumed once, in time, as it was made |
| TerraformLogin.SessionIsReadExactly | backend/src/oauth.ts:329-358 | a session is read exactly for a new approval, and for a stashed request only until its expiry |
| TerraformLogin.AttemptBeginsExactly | backend/src/oauth.ts:360-367 | a redemption gets past the peek exactly if the code is there and has not expired |
| TerraformLogin.TokenIsIssuedExactly | backend/src/oauth.ts:369-396 | a token is issued if and only if the code is live, its redirect URI is presented with a verifier for its challenge (section 4.6 of RFC 7636), and its user is neither blocked nor has to change the password |
| TerraformLogin.AnyAttemptBurnsCode | backend/src/oauth.ts:378-386 | an attempt past the peek burns the code for good, whatever verifier it had |
| TerraformLogin.LiveGrantsAreCurrent | backend/src/oauth.ts:212-241 | every live code and token was approved under the user's current password |
| TerraformLogin.PasswordChangeRevokes | backend/src/lib/oauth-handshake.ts:28-39 | a password change takes exactly the user's codes and tokens |
| TerraformLogin.StaleSessionGetsNoCode | backend/src/oauth.ts:218-226 | a session read under an earlier password hash never gets a code, whatever happens after |
| TerraformLogin.BlockedUserGetsNoToken | backend/src/oauth.ts:384-386 | from a block until it is lifted no token is issued to the user |
| TerraformLogin.PruneTakesExpired | backend/src/lib/oauth-handshake.ts:96-103 | pruning takes exactly what has expired |
| LockfileScanner.StripTrailingCommas | scripts/supply-chain-manifest.ts:100-123 | the index loop computes the recursive scan |
| LockfileScanner.StripRemovesTrailingCommas | scripts/supply-chain-manifest.ts:98-123 | for every value with any gaps and optional commas, stripping gives the same text without trailing commas (sections 4, 5 and 7 of RFC 8259) |
| LockfileScanner.PlainJsonIsUnchanged | scripts/supply-chain-manifest.ts:98-123 | plain JSON stays as it is |
| LockfileScanner.ParseOfStrippedIsMeaning | scripts/supply-chain-manifest.ts:124-127 | parsing the stripped text gives the value it was written from |
| LockfileScanner.ParseJsonExactly | scripts/supply-chain-manifest.ts:124-124 | the parser reads a text if and only if it is some value's JSON text, and gives that value |
| JsonLexemes.NumbersExactly | scripts/supply-chain-manifest.ts:124-124 | a text is taken for a number if and only if it is one's text: minus, whole part, fraction and exponent (section 6 of RFC 8259) |
| JsonLexemes.ScalarsExactly | scripts/supply-chain-manifest.ts:124-124 | the scalars are the numbers and the three literal names (section 3 of RFC 8259) |
| JsonLexemes.BodiesExactly | scripts/supply-chain-manifest.ts:124-124 | a text is taken for a string's body if and only if it consists of characters that stand for themselves and of escapes (section 7 of RFC 8259) |
| LockfileScanner.ParseBunLock | scripts/supply-chain-manifest.ts:100-127 | a text written with any trailing commas gives the object it was written from and nothing for another value; for any text, a value results if and only if stripping leaves the JSON text of an object with that value |
| Versions.CompareIsKeyOrder | backend/src/binaryManager.ts:247-262 | the comparison is lexicographic on the three numbers, pre-releases just below their release |
| Versions.CompareIsTotalPreorder | backend/src/binaryManager.ts:247-262 | a total preorder on all strings |
| Versions.ConstraintIsConvex | backend/src/binaryManager.ts:264-292 | a constraint that holds of two versions holds of everything between |
| Versions.MatchesAreContiguous | backend/src/binaryManager.ts:294-298 | the matches of an expression form one block of a sorted list |
| Versions.ResolveConstraint | backend/src/binaryManager.ts:684-692 | the descending search returns the greatest match, and fails exactly without any; what matches is stated by `ConstraintMeans` and `CommaIntersects` |
| Versions.ClosestKnownVersion | backend/src/binaryManager.ts:613-624 | the greatest candidate at or below the target, else the greatest of all; of equal ones the first |
| Versions.ReleaseKey | backend/src/binaryManager.ts:241-245 | a written version, of any number of parts, with or without a `v` and a suffix, parses to its numbers |
| Versions.WrittenOrder | backend/src/binaryManager.ts:247-262 | written versions are ordered by their first three numbers, missing ones counting as zero, a suffix just below none |
| Versions.ConstraintMeans | backend/src/binaryManager.ts:264-292 | for each of the six forms, any white space around it and a `v` or not: which written versions a constraint admits, exactly |
| Versions.CommaIntersects | backend/src/binaryManager.ts:294-298 | two expressions with a comma between admit exactly what both admit |
| Versions.OneConstraint | backend/src/binaryManager.ts:294-298 | an expression without a comma is its one constraint, and "latest" admits everything |
| Versions.RangeMeans | backend/src/binaryManager.ts:264-298 | a range admits exactly the versions from its lower end up to below its upper one |
| Text.ParseIntMeans | backend/src/binaryManager.ts:241-245 | a number is read after white space and a sign, up to what is no digit |

## Left out

- Single-node mode without execution leases; the leases of the run protocol are those of the clustered mode.
- The database clock: a lease is claimed, renewed and fenced by the clock value at commit; the source reads it in a query of its own shortly before.
- The local lease watchdog is taken to be no later than the lease's expiry in the database, so a process is started only under a live lease.
- Schedule times of confirmed runs: a scheduled claim may come at any moment, and re-arming a schedule is no step of its own.
- Agent-pool jobs after the claim and their status writers (backend/src/lib/agent-jobs.ts, backend/src/routes/agent-api.ts, backend/src/routes/agents.ts:1159); one of these, backend/src/lib/agent-jobs.ts:864, marks a run errored as unguarded as `ErrorUnguarded` does. The results on ended runs speak of the modelled writers.
- Durable jobs, run tasks and their callbacks, notifications, logs and audit rows.
- The lock sweep's first page read, of the locks held for runs: the model asks only for the run's own page, so it allows more sweeps than the code.
- The errored write for a configuration version is one statement over all its runs; the model writes one run a step.
- Administrative force-unlock, deletion of runs and workspaces, and the canceled-to-pending edge of the status table, which no route takes.
- Terraform, sandbox and policy processes: each is a nondeterministic success or failure.
- ClaimableRunCanBeApplied: says that the way exists, not that it is taken; nothing is assumed about fairness, and timers are no part of the steps.
- ErrorInterruptedRun: runs after the executor it recovers from, not beside one that lost its lease and is still alive; a removal that fails is scheduled again, which is the timer's case.
- ApplyExecution.Await: the removal timer is the local node's; a timer on another node that shares the storage is not modelled. A cancel writes the row and arms the timer at one moment.
- CaptureState: a work directory with several files of the state's name; the source captures the first that it finds.
- Poll: reads of workspaces, pools and policies, which decide whether an examined run is claimed, are one given set of claimable runs.
- PromiseKeptExactly: a poll reads all its facts at one moment, later than the workspace row and earlier than its insertion; what the scans give when the tables change meanwhile is stated for them alone.
- DestroysAreSpaced: run rows are kept; a poll that overwrites a schedule set since its read clears that schedule unfired.
- RunningIsBounded: the single-node claim without a fence is not modelled, and the limit is not changed while the system runs.
- RestoreYieldsAPlanning: the checksum is taken as injective and the secret store as a lossless wrapper; path confinement is not modelled.
- Cancel: a group without a valid process id is recorded as signaled, although no signal can be sent to it.
- ExecutionVariables: values are given decrypted; the order of the returned list is only that of first insertion.
- BuildSanitizedEnv: upper-casing is that of the ASCII letters, and names with a meaning to JavaScript objects are ordinary names.
- Terraform input files of run variables, and the API's listing of effective variables.
- AtMostTwiceMax: one duration, time that does not run backwards, and neither refunds nor resets, without which the bound is false.
- TerraformLogin: request parsing, cookies, multi-factor checks and the hashing of verifiers, which are given by their results.
- ConstraintMeans: a `~>` target with a suffix, which the accepted form of such a constraint excludes.
- ResolveConstraint: the "latest" and exact-version branches, version discovery and its caches; numbers are unbounded.
- ParseBunLock: strings are compared as written, so two spellings of one string are different values.
- Regex migration scanning, OpenAPI generation, schema generators, benchmarks, headers, CORS and static serving: text processing and plumbing.
