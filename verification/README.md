# issueq: the job queue, its runners, and label routing

issueq turns labelled GitHub issues into jobs. Any number of runner instances share one SQLite queue: they claim jobs under leases, launch each one under a supervisor, renew, finish, and recover what a dead runner left behind. This project models that queue and the programs on top of it, and proves what they are relied on for.

## How the model is built

| file | module | what it holds |
|---|---|---|
| `Model.dfy`, `Ordering.dfy`, `Wrappers.dfy` | Model, Ordering, Wrappers | rows and records, SQL null helpers, text order and `ORDER BY` |
| `Queries.dfy` | Queries | every SQL guard and every committed effect, as functions on the tables |
| `Store.dfy` | Sqlite | class `Store`, the tables updated in place, one method per guarded UPDATE or immediate transaction, each proved equal to its function in Queries and, on the rows and columns themselves, to what its statement says |
| `Cluster.dfy` | Cluster | the queue, a clock, and what each runner is doing, as a state machine of 19 atomic steps; a run is any sequence of steps |
| `Rows.dfy`, `Leases.dfy`, `Launches.dfy`, `Attempts.dfy`, `Grants.dfy`, `Capacity.dfy` | Rows, Leases, Launches, AttemptCounters, Grants, Capacity | the parts of the inductive invariant |
| `Protocol.dfy`, `Reach.dfy` | Protocol, Reach | the theorems about every reachable state, and runs that reach the limits and the states those theorems speak of |
| `Workflow.dfy`, `Recovery.dfy`, `Holding.dfy` | Workflow, Recovery, Holding | reading observations, recovery and pruning, and what each answer of the store tells its caller |
| `Session.dfy` | Session | one runner at work: before each of its store calls the others commit any number of steps, and the call may fail before or after it commits; its calls to GitHub, cancellations, heartbeats and acknowledged finalizations are recorded |
| `Launching.dfy`, `Lifecycle.dfy`, `Dispatcher.dfy`, `Daemon.dfy` | Launching, Lifecycle, Dispatcher, Daemon | the programs, statement by statement, over a Session |
| `GitHub.dfy`, `Actions.dfy` | GitHub, Actions | the error texts of DELETE calls and which of them are taken for an absent label; fusing and applying label actions |
| `Keys.dfy`, `Router.dfy` | Keys, Router | hash inputs and dedupe keys, one routing pass |
| `TimeText.dfy` | TimeText | stored times: the calendar, the text, and why SQL may compare texts |

`History` in Cluster records launches, counts, reversals, promised leases and finalizers. No step reads it; it exists so that theorems can speak about the past. `Session.Valid` says that the shared state is one that some run of the state machine reaches, so every theorem of Protocol holds at every point of every program. A program can make a call to GitHub for a job only where `Session.CallOut` allows it: directly after a renewal of that job's lease that succeeded, with no other step of the runner in between.

Assumptions, all explicit in the model:

- one clock that never goes back, read once in each committed step; the explicit times of the recovery calls are earlier readings of it
- one fixed positive lease, and the same limits for every runner
- a job is finalized with a terminal status only
- a crash is a runner that takes no further step
- a runner works on one launch at a time and neither claims nor adopts while it does, which is how the reconcile loop and the wave are written
- job ids are new or refused, an attempt is counted under the job's own issue and route, and the issue refreshed for a job is the job's own

## What the proofs found

- **A lost lease is stuck while its owner lives** (`Protocol.LostLeaseStays`). The owner's guards need an unexpired lease, and every recovery needs a stale heartbeat. A runner that keeps its heartbeat but lets one lease run out can neither renew nor finish that row, and no other runner may take it. `Reach.LeaseIsLost` is a run that gets there, and `Recovery.LostLeaseFate` says who may take the row in which case.
- **A frozen row is never freed** (`Protocol.FrozenForGood`). No call can renew, finalize, adopt or release a row marked unknown. It keeps its slot, and `cancelActive` keeps such a job in its active set and never returns without an error (`Dispatcher.Wave.CancelActive`). `Reach.RowIsFrozen` is a run that gets there.
- **Label removal stops at the first absent label** (`Actions.AppliesItsMeaning`). The client deletes labels one by one and returns on the first 404, and the caller takes that for success, so later labels of the list stay on the issue. The lemma says exactly when an action does what it means.
- **Failed removals taken for absent labels** (`Actions.Issue404`). The caller knows an absent label by the error's text: any text that contains "404" or "not found". The text holds the request path, so on issue 404 (or 1404, or with 404 in the owner, repository or label as they stand in the path) a DELETE that fails with status 500 or 403 counts as done and the action as applied; so does a failure whose response body or transport reason says so. `Actions.ValidatedSuccess` is the exact condition for an action that passed the configuration check: success always means the effect of the removals and additions if and only if no failure that may occur has such a text. `Actions.SuccessMeansApplied` is the condition for every action without repeated removals.
- **A broken-off removal is never finished** (`Actions.RetryAfterBreak`). When the calls fail after some labels were removed, the retry meets an absent label first, stops there and reports success.
- **Keys** (`Keys.NulLabelsCollide`). Two different label lists share a hash input when a label contains a NUL; lists of NUL-free labels never do.
- **Times** (`TimeText.ShortTextsMisorder`, `TimeText.FiveDigitYearsMisorder`). Text order is time order for what `formatTime` writes up to year 9999. It is not for texts without a fraction, which `parseTime` still reads, nor beyond year 9999.

## Model

| member | source | states |
|---|---|---|
| Protocol.AtMostOneLaunch | internal/workflow/launch.go:124-155 | in every run of any number of runners, crashes included, the supervisor's Launch is called at most once per job id |
| Protocol.AttemptCap | internal/workflow/lifecycle.go:75-105 | with GitHub configured, the launched jobs standing against a counter (last counted there, not reversed) never outnumber the route's attempt limit |
| Protocol.LeaseExclusion | internal/store/sqlite/sqlite.go:349-354 | two unexpired lease promises for one job name one runner, and that runner owns the running row at least that long or has finalized it |
| Protocol.AttemptConservation | internal/store/sqlite/sqlite.go:627-680 | each counter is its counts less its reversals, covers the unreversed jobs last counted there, and every job is reversed at most once |
| Protocol.ReversalNeverBlocked | internal/store/sqlite/sqlite.go:627-655 | for a running job the guards of a reversal hold exactly when the job was ever counted |
| Protocol.ReversalUndoesLatestCount | internal/store/sqlite/sqlite.go:560-584 | after any run with no further count of the job, a reversal lowers by one the very counter its latest count raised, and no other |
| Protocol.LatestCountReverses | internal/store/sqlite/sqlite.go:627-655 | a counted job stands against its counter through any run without a further count, and then a reversal lowers that counter by one |
| Protocol.ChargeStays | internal/store/sqlite/sqlite.go:608-610 | only another count of the same job changes which counter it stands against |
| Protocol.CountedStays | internal/store/sqlite/sqlite.go:608-610 | a counted job stays counted through release, reclaim, adoption and finalization |
| Protocol.Absorbed | internal/store/sqlite/sqlite.go:566-574 | a terminal row, and a running row of unknown launch state, is the same row after every further run |
| Protocol.FrozenForGood | internal/store/sqlite/sqlite.go:980-987 | a row marked unknown stays running for good, and no renewal, finalization, adoption or release of it succeeds |
| Protocol.LostLeaseStays | internal/store/sqlite/sqlite.go:876-885 | while the owner's heartbeat stays fresh, a row whose lease ran out is changed by no step of any run |
| Protocol.OnlyOwnerOrRecovery | internal/store/sqlite/sqlite.go:956-987 | a step by anyone but the owner changes a running row only as a recovery of an expired lease of a stale owner |
| Protocol.ClaimStartsClean | internal/store/sqlite/sqlite.go:349-354 | a row that is not running has no owner, lease, process or launch fields, so a claim, which does not reset the pid, starts from none |
| Protocol.CapacityHolds | internal/store/sqlite/sqlite.go:302-347 | running rows never exceed the global limit, nor the limit of a positively limited route, in any reachable state |
| Protocol.KeysStayDistinct | internal/store/sqlite/sqlite.go:1231-1267 | no two rows of a reachable state share a dedupe key |
| Protocol.TransitionCap | internal/store/sqlite/sqlite.go:682-704 | over every interleaving an issue's transition count is the number of counts committed for it, and those let through are the first ones up to the limit and no more |
| Protocol.InvNext | internal/store/sqlite/sqlite.go:284-1000 | the whole invariant is kept by each of the 19 steps |
| Protocol.InvRun | internal/store/sqlite/sqlite.go:284-1000 | the invariant holds after any run from a state where it holds |
| Reach.CapIsReached | internal/workflow/lifecycle.go:75-105 | whatever a route's attempt limit, some run launches that many jobs on one counter, so the cap cannot be lowered |
| Reach.TransitionIsCounted | internal/workflow/lifecycle.go:44-136 | some run takes the ordinary course: the issue is stored, the job claimed and counted, a label change counted within the transition limit, and the job launched |
| Reach.LeaseIsLost | internal/store/sqlite/sqlite.go:785-800 | some run leaves a running row with an expired lease and an owner whose heartbeat is fresh |
| Reach.RowIsFrozen | internal/store/sqlite/sqlite.go:980-999 | some run freezes a committed launch as unknown |
| Rows.RowsOkNext | internal/store/sqlite/sqlite.go:452-514 | the guards keep every row well formed: launching, active and unknown imply kind, token and metadata path; idle rows are clean |
| Rows.Frame | internal/store/sqlite/sqlite.go:284-1000 | what one step may do to one row: nothing to its task, nothing to terminal or unknown rows, a claim of a pending row, a holder's move forward, or recovery |
| Rows.HistoryFrame | internal/store/sqlite/sqlite.go:547-625 | only launching, counting and finalizing write their parts of the record, and promises are never withdrawn |
| Leases.StepHonours | internal/store/sqlite/sqlite.go:876-885 | a lease promised to a runner survives any single step of anybody |
| Leases.NewReceipts | internal/store/sqlite/sqlite.go:956-962 | claim, renewal and adoption promise only what the row then says |
| Leases.RunningEndsByFinalize | internal/store/sqlite/sqlite.go:547-589 | a running row becomes terminal only by a finalization |
| Launches.PastPreparingStays | internal/store/sqlite/sqlite.go:386-450 | no step returns a launching, active, unknown or finished row to pending or preparing |
| Launches.CommitIsFirst | internal/store/sqlite/sqlite.go:482-488 | marking a row launching succeeds only for a job that nobody committed or launched before |
| Launches.LaunchSpendsCommit | internal/workflow/launch.go:138-153 | a Launch uses up its runner's one commit |
| Launches.ActivityOkNext | internal/store/sqlite/sqlite.go:471-514 | what a runner in the middle of a launch believes about state and token stays true of the row as long as it owns it |
| AttemptCounters.CountersOkNext | internal/store/sqlite/sqlite.go:591-680 | counter bookkeeping and the grant limit are kept by every step |
| AttemptCounters.CountMoveKeepsGrant | internal/store/sqlite/sqlite.go:591-625 | a count keeps the jobs counted within the limit from outnumbering it, also when the job was counted elsewhere before |
| AttemptCounters.FinalizeStep | internal/store/sqlite/sqlite.go:547-589 | a finalization takes its job off the counter it stands against, once, or leaves all counters alone |
| AttemptCounters.FinalizeKeeps | internal/store/sqlite/sqlite.go:560-584 | a reversing finalization keeps the counter bookkeeping and the grant limit on every key |
| Grants.LaunchesGrantedNext | internal/workflow/lifecycle.go:75-105 | with GitHub configured, a job is committed and launched only if its latest count was within the limit |
| Grants.BusyOwnsNothingNew | internal/store/sqlite/sqlite.go:945-978 | a runner in the middle of a launch cannot come to own a row it did not own |
| Capacity.CapacityOkNext | internal/store/sqlite/sqlite.go:302-356 | both capacity limits are kept by every step, adoption, freezing, release and reclaim included |
| Capacity.OnlyClaimStarts | internal/store/sqlite/sqlite.go:302-356 | a row starts running only by a claim, below the global limit and with room on its route |
| Sqlite.Store.ClaimNextJob | internal/store/sqlite/sqlite.go:284-384 | the row taken is pending, available, of a wanted kind, in the frontier and on a route with room, and no claimable row has a higher priority, the same priority and an earlier creation, or both the same and a smaller id; only that row changes; none is taken exactly when capacity is full or no row fits |
| Sqlite.Store.ClaimNextJobInFrontier | internal/store/sqlite/sqlite.go:276-282 | the same among the frontier, priority, creation and id compared there; an empty frontier claims nothing |
| Sqlite.Store.ListEligibleJobIDs | internal/store/sqlite/sqlite.go:887-908 | exactly the pending rows available by now, once each; an earlier one has the higher priority, or the same and an earlier creation, or both the same and a smaller id |
| Sqlite.Store.SelectExpired | internal/store/sqlite/sqlite.go:394-426 | exactly the releasable rows except the caller's own active ones |
| Sqlite.Store.ReleaseEach | internal/store/sqlite/sqlite.go:428-446 | the update loop releases each of the given rows, no other, and counts them |
| Sqlite.Store.ReleaseExpiredLeases | internal/store/sqlite/sqlite.go:386-450 | exactly the running rows with an expired lease, a stale owner and no durable launch, the caller's own active ones excepted, become pending with owner, lease, process and launch cleared; the count is of those |
| Sqlite.Store.ExecOwned | internal/store/sqlite/sqlite.go:770-800 | one row updated exactly when it is running, owned by the caller, unexpired and the guard holds; otherwise unchanged tables, and a lost lease only for a running row of the caller that expired |
| Sqlite.Store.RenewJobLease | internal/store/sqlite/sqlite.go:876-885 | a renewed row differs in its lease, now a whole lease from now, and its update time only |
| Sqlite.Store.PersistLaunchSpecOwned | internal/store/sqlite/sqlite.go:471-480 | a preparing row takes kind, token, spec path, metadata path, deadline and files, each in its own column, and stays preparing |
| Sqlite.Store.MarkJobLaunchingOwned | internal/store/sqlite/sqlite.go:482-488 | only a preparing row with this token becomes launching, and nothing else of it changes |
| Sqlite.Store.PersistLaunchRecordOwned | internal/store/sqlite/sqlite.go:503-514 | only a launching row with this token becomes active; every column of the record lands in its own, and an empty or zero one leaves what was there |
| Sqlite.Store.AdoptStaleRunningJob | internal/store/sqlite/sqlite.go:945-978 | accepted exactly for a running, expired, durable row of the old owner without a fresh heartbeat; owner, holder, lease and update time change and nothing else |
| Sqlite.Store.MarkStaleRunningJobUnknown | internal/store/sqlite/sqlite.go:980-999 | accepted for the same rows; the launch state becomes unknown and nothing else changes |
| Sqlite.Store.FinalizeJobOwned | internal/store/sqlite/sqlite.go:547-589 | a held row gets status, output, time and error and loses owner, lease, process and launch; counter and row go down by one exactly when work never started and the row names a counter above zero; otherwise the transaction rolls back |
| Sqlite.Store.ReverseAttempt | internal/store/sqlite/sqlite.go:627-655 | counter and job go down together, or neither does |
| Sqlite.Store.IncrementAttemptsForJob | internal/store/sqlite/sqlite.go:591-625 | counter and provenance go up by one together on a held row, under the given scope or the legacy one, or the transaction rolls back |
| Sqlite.Store.IncrementTransitionsForJob | internal/store/sqlite/sqlite.go:682-704 | the issue's transition count goes up on a held row only |
| Sqlite.Store.ListOwnedRunningJobs | internal/store/sqlite/sqlite.go:516-529 | exactly the running rows of this owner, once each, by start time and id |
| Sqlite.Store.ListStaleDurableRunningJobs | internal/store/sqlite/sqlite.go:927-943 | exactly the orphaned durable rows, once each, in lease order |
| Sqlite.Store.EnqueueJob | internal/store/sqlite/sqlite.go:1231-1267 | a row is inserted exactly when neither id nor dedupe key exists: pending, with the given task, available at the given time or now, never counted and owned by nobody; other rows stay, and the row returned has the key |
| Sqlite.Store.UpsertIssue | internal/store/sqlite/sqlite.go:254-262 | a new issue starts at generation and transition count zero, a known one keeps both |
| Sqlite.Store.HeartbeatRunner | internal/store/sqlite/sqlite.go:822-842 | exactly for a named runner its own heartbeat row is written with the given time, and the others stay |
| Sqlite.Store.PruneStaleRunnerHeartbeats | internal/store/sqlite/sqlite.go:852-862 | exactly the heartbeats older than the cutoff are deleted |
| Queries.ScopeOrLegacy | internal/store/sqlite/sqlite.go:591-594 | the stored scope is never blank, and a given scope is kept |
| Ordering.OrderBy | internal/store/sqlite/sqlite.go:312-316 | every selected row exactly once, in the given order |
| Ordering.SortedIsCanonical | internal/router/router.go:351-360 | two sorted arrangements of the same elements are equal |
| Recovery.RecoveryPartition | internal/store/sqlite/sqlite.go:399-402 | in every reachable state an orphaned row is exactly one of releasable, adoptable and frozen, by its launch state, and what the scan lists is what the updates accept |
| Recovery.LostLeaseFate | internal/store/sqlite/sqlite.go:395-447 | in every reachable state a row with an expired lease is held by no one; with its owner fresh at the cutoff no recovery accepts it, and with its owner stale exactly one does unless it is frozen |
| Recovery.LaunchRecordMeans | internal/workflow/observe.go:20-67 | in every reachable state a row has launch evidence exactly when it is running under the wrapper and launching or active |
| Recovery.StaleTestsAgree | internal/store/sqlite/sqlite.go:936-962 | the LEFT JOIN owner test and the NOT EXISTS owner test agree |
| Recovery.RecoverOne | internal/workflow/adopt.go:60-107 | a takeable row is adopted exactly when it has launch evidence and is not observed as unknown, and frozen otherwise |
| Recovery.RecoverStaleDurableRunningJobs | internal/workflow/adopt.go:33-58 | after an error-free pass exactly the takeable rows were adopted or frozen, by what the inspection said; no other row changed, and the summary counts the adopted and the frozen ones |
| Recovery.RecoveryPass | internal/daemon/daemon.go:234-263 | after one error-free pass with release and no interference, every running row has a live lease, an owner with a fresh heartbeat, an unknown launch state, or is the caller's own active job |
| Recovery.PassCares | internal/store/sqlite/sqlite.go:386-450 | row by row, recovery followed by release leaves no orphan |
| Recovery.PruneIsTransparent | internal/store/sqlite/sqlite.go:852-862 | pruning at or before the recovery cutoff changes no result of release, listing, adoption or mark-unknown |
| Holding.OthersTakeOnly | internal/store/sqlite/sqlite.go:770-820 | steps of other runners can only take rows from a runner, never give it one |
| Holding.HoldingsShrink | internal/store/sqlite/sqlite.go:770-820 | no step but a runner's own claim or adoption gives it a row, held or unlaunched |
| Holding.SettledStays | internal/store/sqlite/sqlite.go:547-589 | no step changes a finished row or a running row of unknown launch state |
| Holding.RenewTells | internal/store/sqlite/sqlite.go:876-885 | renewal succeeds exactly for a held row, which is then held for a whole lease and otherwise as before |
| Holding.JustRenewed | internal/store/sqlite/sqlite.go:876-885 | a renewal that comes last in a run extends the lease of a held job, and covers the calls that follow |
| Holding.OthersKeepRenewed | internal/workflow/workflow.go:110-114 | steps of other runners leave a renewal the runner's latest step |
| Holding.TasksStay | internal/store/sqlite/sqlite.go:284-1000 | no step removes a row or changes its task |
| Holding.CountsStay | internal/store/sqlite/sqlite.go:682-704 | no step lowers an issue's transition count or changes its generation |
| Holding.AdoptionTells | internal/store/sqlite/sqlite.go:945-978 | an accepted adoption changes owner and lease of that row only and gives its caller no unlaunched row |
| Holding.FinalizeTells | internal/store/sqlite/sqlite.go:547-589 | finalization succeeds exactly for a held row, which then shows the outcome column by column; afterwards the row is not held, whatever the answer |
| Holding.FinalizeReversal | internal/store/sqlite/sqlite.go:560-584 | in every reachable state a finalization reverses the job's count exactly when work never started and the job was ever counted |
| Holding.CountTells | internal/store/sqlite/sqlite.go:591-625 | a refused count means the row is no longer held |
| Holding.SaveSpecTells | internal/store/sqlite/sqlite.go:471-480 | at this point of a launch an ownership error means the row is no longer held: the launch-state guard never refuses a held row |
| Holding.CommitTells | internal/store/sqlite/sqlite.go:482-488 | the same for marking launching: token and state guards never refuse a held row |
| Holding.RecordTells | internal/store/sqlite/sqlite.go:503-514 | the same for the launch record |
| Holding.RecordStores | internal/store/sqlite/sqlite.go:503-514 | a stored launch record leaves a running row with every column of the record: kind, token, paths, supervisor id, pid, pgid and times |
| Holding.OwnRowsAreKept | internal/store/sqlite/sqlite.go:416-424 | a release that names every row its caller owns leaves them all alone, however late they are |
| Holding.AdoptedAreLaunched | internal/store/sqlite/sqlite.go:945-978 | adoption gives its caller only the adopted row, and that one is past preparing |
| Session.Session.Interfere | internal/store/sqlite/sqlite.go:714-730 | other runners' steps keep the system reachable, take rows only, and leave this runner's phase alone |
| Session.Session.Renew | internal/store/sqlite/sqlite.go:876-885 | whatever the others do meanwhile, a renewal that succeeded or was refused is in the run at its end; success means the row is held, a loss that it is not |
| Session.Session.CallOut | internal/actions/actions.go:117-132 | a call to GitHub for a job is made only directly after a successful renewal of its lease |
| Session.Session.FinalizeOwned | internal/store/sqlite/sqlite.go:547-589 | success leaves the row with the status and output given and, exactly when work never started and the job was counted, its count reversed |
| Session.Session.CallLaunch | internal/workflow/launch.go:141-153 | at the point of the Launch call the job has been launched exactly once |
| Launching.LaunchClaimedWrapper | internal/workflow/launch.go:59-194 | success means launched exactly once, with a running wrapper row that carries token and metadata path, so that recovery can act on it; an ownership loss is reported only when the row is no longer held; the runner gains no row |
| Launching.LaunchAndRecord | internal/workflow/launch.go:138-193 | from the committed row on: success leaves a running row with the supervisor's answer under the spec's paths; a failed launch is finalized failed or cancelled; a launch whose record is refused is cancelled exactly once, and finalized exactly when that worked and the row is not lost |
| Launching.RecordOrCancel | internal/workflow/launch.go:155-193 | the same once the launch succeeded |
| Lifecycle.PrepareClaimedWrapperLaunch | internal/workflow/lifecycle.go:44-136 | the outcome follows from what was found: launch exactly when no call failed, the route matches, no gate blocks, the count is within the route's limit and transitions within theirs; otherwise skipped exactly for a mismatch or a blocked scope, dead exactly for too many attempts or transitions, failed exactly when a call failed; the calls made are those of the actions due, in order; a status reported as finalized is the one stored |
| Lifecycle.CountAndStart | internal/workflow/lifecycle.go:68-136 | the same for the part after the issue is refreshed: predicate, scope, count, on_start, transition limit |
| Lifecycle.ScopeAndStart | internal/workflow/lifecycle.go:72-136 | the same from the attempt scope on: blocked is skipped, a failed call is failed |
| Lifecycle.CountWithin | internal/workflow/lifecycle.go:82-136 | the same from the count on |
| Lifecycle.Exceeded | internal/workflow/lifecycle.go:94-105 | beyond the attempt limit the job ends dead when the action for that was applied, with exactly its calls made, and failed when it broke |
| Lifecycle.StartActions | internal/workflow/lifecycle.go:109-136 | within the limit: launch exactly when on_start was applied and transitions are within their limit, dead exactly when they are not, failed when a call broke |
| Lifecycle.ApplyOwned | internal/workflow/workflow.go:110-114 | success means exactly the calls of the action were made, in order, each under a lease renewed just before it, and the issue's state row is stored; a loss means the row is no longer held |
| Lifecycle.CheckTransitionLimit | internal/workflow/lifecycle.go:273-301 | dead exactly when the count just made is over the limit, ten if none is set; then the action for that was applied under GitHub; the stored count is at least the one made, and that very one for a job let through; a loss means the row is no longer held |
| Lifecycle.ApplyAndCount | internal/workflow/lifecycle.go:109-131 | a transition is counted exactly when the labels changed; dead exactly beyond the limit, and then the action for that was applied too |
| Lifecycle.FinalizeOwnedObservation | internal/workflow/finalize.go:58-96 | settled exactly for an ended run of a row with launch evidence: exit code 0 is stored as succeeded, any other or none as failed, a failed or timed-out run as failed, a cancelled one as cancelled, with its output in its columns and its count reversed exactly when work never started; a starting, running or unknown run changes nothing |
| Lifecycle.FinalizeWithLifecycle | internal/workflow/lifecycle.go:179-252 | without error, settled exactly for an ended run, and then no longer held; without GitHub stored as above; under GitHub the status follows from the result file, the final action and the transition limit, and the action run is on_success exactly for exit code 0 with a readable result |
| Lifecycle.FinalActions | internal/workflow/lifecycle.go:199-249 | failed exactly when the issue could not be loaded or the action broke, dead exactly beyond the transition limit, else as observed; the calls made are those of the action; a loss means the row is no longer held |
| Dispatcher.Wave.Refill | internal/dispatcher/dispatcher.go:125-162 | every frontier job is remaining or claimed, counters and active stay within claimed and capacity, the counters stay true; without error it stops only when it is full or nothing of the frontier can be claimed, every acknowledged finalization is counted, and nothing is held outside active; terminates by the remaining frontier |
| Dispatcher.Wave.ReapStep | internal/dispatcher/dispatcher.go:189-225 | one active job leaves active only when it is no longer held, is counted only when it leaves, and was renewed if it stays |
| Dispatcher.Wave.ReapOne | internal/dispatcher/dispatcher.go:195-225 | a run observed as ended is settled and dropped, an unknown one is renewed and kept, a running one is renewed and dropped only when its row is lost |
| Dispatcher.Wave.ReapRenewActive | internal/dispatcher/dispatcher.go:180-227 | the accounting is kept; without error every job left active was renewed in the meantime, its lease extended by a whole lease if it was held, and a job leaves active only when the runner no longer holds it |
| Dispatcher.Wave.CancelActive | internal/dispatcher/dispatcher.go:244-300 | counters stay, and success leaves nothing active and nothing held; an active job whose row is frozen stays active, and with one the answer is never success, however long it polls |
| Dispatcher.Wave.RunFrontier | internal/dispatcher/dispatcher.go:92-123 | the frontier is the eligible rows at one moment; however it ends the accounting balances and each counter is the number of distinct jobs stored with that status; returning without error the runner holds no row, nothing of the frontier can be claimed, and the counters count exactly the finalizations it made, cancellations apart |
| Dispatcher.Wave.TrueNow | internal/dispatcher/dispatcher.go:164-242 | every job counted is still stored with the status it was counted under, whatever other runners did since |
| Dispatcher.TallyOneMore | internal/dispatcher/dispatcher.go:229-242 | counting one more finished job keeps every counter the number of jobs ended with its status |
| Dispatcher.OneMoreFinal | internal/dispatcher/dispatcher.go:229-242 | an acknowledged finalization is to be counted unless it is a cancellation |
| Dispatcher.AccountsAfterClaim | internal/dispatcher/dispatcher.go:125-162 | claiming one job of the frontier, whatever becomes of it, keeps the accounting |
| Dispatcher.AccountsAfterReap | internal/dispatcher/dispatcher.go:180-227 | dropping or keeping one active job keeps the accounting |
| Daemon.Loop.Refill | internal/daemon/daemon.go:270-307 | without error it stops only when capacity is full or nothing is claimable, and leaves no claimed row unlaunched |
| Daemon.Loop.Attend | internal/daemon/daemon.go:214-232 | a run observed as running is renewed, an ended one is settled, an unknown one is left alone |
| Daemon.Loop.RecoverStale | internal/workflow/adopt.go:33-96 | among other runners, rows are gained by adoption only, every one is reported, and none is unlaunched; without error every row that was an orphan when listed was adopted or frozen at its moment in the run, or could not be taken at that moment |
| Daemon.Loop.RecoverEach | internal/workflow/adopt.go:42-56 | the same for the loop over the listed rows |
| Daemon.Loop.AttendOwned | internal/daemon/daemon.go:208-234 | the active ids cover every row the runner owns; without error every listed row was renewed if observed as running and settled if observed as ended |
| Daemon.Loop.ReleaseAndPrune | internal/daemon/daemon.go:258-264 | without error expired leases were released and old heartbeats deleted by one reading of the clock |
| Daemon.Loop.Reconcile | internal/daemon/daemon.go:208-268 | without error every owned row as listed and every adopted row was renewed or settled, leases were released without taking a row it owns, no row is left unlaunched that was not before, and nothing claimable is left below capacity |
| Daemon.Loop.CloseOne | internal/daemon/daemon.go:373-408 | the lease is renewed first; a row not counted as remaining is finalized or no longer held; a run that may still be held was asked to stop; without launch evidence the only status given is cancelled |
| Daemon.Loop.CloseAll | internal/daemon/daemon.go:365-411 | a round that counts nothing remaining leaves nothing held |
| Daemon.Loop.Shutdown | internal/daemon/daemon.go:356-418 | a heartbeat is sent before each round; success means no row names this runner with an unexpired lease |
| Daemon.Loop.Stop | internal/daemon/daemon.go:327-336 | the heartbeat is deleted exactly after such a success |
| Actions.RemoveWithout | internal/actions/actions.go:236-244 | in-place filtering leaves exactly the other values, in order, in the prefix it returns |
| Actions.LabelSet.Add | internal/actions/actions.go:228-234 | the value is appended unless present, and seen stays the elements of values |
| Actions.LabelSet.Drop | internal/actions/actions.go:102-111 | the value is filtered out in place, and seen stays the elements of values |
| Actions.Transfer | internal/actions/actions.go:100-111 | names move from one ordered set into the other, both staying valid |
| Actions.Merge | internal/actions/actions.go:87-115 | the merged lists are the base lists with the result's additions, then removals, transferred |
| Actions.MergedElements | internal/actions/actions.go:87-115 | the merged lists as sets, without duplicates |
| Actions.MergePreservesMeaning | internal/actions/actions.go:87-115 | on every label set, the fused action does what the base and then the result would do |
| Actions.MergeDisjoint | internal/actions/actions.go:87-115 | the fused lists are disjoint exactly when the result settles every label the base both adds and removes, so always for a validated base |
| Actions.ValidateAction | internal/config/config.go:563-591 | no error exactly for duplicate-free disjoint lists |
| Actions.SameLabelSet | internal/actions/actions.go:193-208 | true exactly for equal multisets |
| Actions.Issue.RemoveLabels | internal/github/github.go:129-137 | deletes in list order up to the first label that is not there or the first call that fails, and returns that error's text; a prefix of the list is removed, and when no call fails the error is one that counts as an absent label |
| Actions.Issue.Apply | internal/actions/actions.go:137-191 | succeeds exactly when the removals end without an error or with a text taken for an absent label, and all later calls work; success means the labels left by those removals plus the additions, the comment and the change flag, and the effect of `Applied` when no DELETE fails; otherwise a prefix of the removals is done, or all of the action |
| Actions.AppliesItsMeaning | internal/actions/actions.go:137-191 | when no call fails, an action does what it means exactly when no present label follows an absent one in the removal list unless it is added again |
| Actions.FusedActionApplied | internal/actions/actions.go:87-191 | the fused action, applied without a failing call, has the effect of base then result exactly under that condition |
| Actions.SuccessMeansApplied | internal/actions/actions.go:137-213 | for every set of failures that may occur: success means the effect `Applied` describes, on all labels and however the calls fail, if and only if a failure taken for an absent label can only come when every label left to remove is added again |
| Actions.ValidatedSuccess | internal/actions/actions.go:137-213 | for an action the configuration check accepts: success always means that effect if and only if no failure that may occur at one of its removals has 404 in the label's path or the status, or says "404" or "not found" in its redacted body or transport text |
| Actions.DisguiseKeeps | internal/actions/actions.go:137-213 | a failure so disguised, with a removal to come that is not added again: with all labels present and only that call failing, the action succeeds and leaves such a label on the issue |
| Actions.Issue404 | internal/actions/actions.go:149-213 | on issue 404 a removal refused with status 500 counts as done: the label stays and the action succeeds |
| Actions.DeletedIsPrefix | internal/github/github.go:129-137 | however the calls fail, a prefix of the list is removed |
| Actions.HandledDeletions | internal/github/github.go:129-137 | when no call fails, the deletions do what `RemovedInOrder` says, and their error counts as an absent label |
| GitHub.RefusalTakenForAbsent | internal/github/github.go:173-178 | a call refused with any status is taken for an absent label exactly when its path or status mentions 404 or its redacted body says "404" or "not found" |
| GitHub.UnansweredTakenForAbsent | internal/github/github.go:168-171 | a call without an answer is taken for an absent label exactly when its address or the transport's reason says "404" or "not found" |
| GitHub.AbsentIsTaken | internal/actions/actions.go:210-213 | a label that is not there is always taken for absent, whatever the body says |
| GitHub.PathMentions404 | internal/github/github.go:63-74 | the path of a label mentions 404 exactly when the escaped owner, repository or label or the number does |
| GitHub.PathLacks | internal/github/github.go:63-74 | a label path holds no character that has to be escaped, so it has no query to cut off and never says "not found" |
| GitHub.EscapeKeeps | internal/github/github.go:63-74 | a name of characters that need no escaping stands in the path as it is |
| GitHub.StatusIs404 | internal/github/github.go:173-178 | among statuses of three digits only 404 mentions 404 |
| GitHub.RedactsNothing | internal/github/github.go:196-205 | a text without the token is left as it is |
| Actions.RetryAfterBreak | internal/actions/actions.go:137-191 | an action retried after its removals broke off removes nothing more, and does what it means exactly when nothing was left to remove |
| Actions.AbsentLabelStopsRemoval | internal/actions/actions.go:210-213 | a concrete list whose second label survives |
| Keys.LabelBytesIffSameLabels | internal/router/router.go:351-360 | equal multisets give equal hash input, and for NUL-free labels only they do |
| Keys.NulLabelsCollide | internal/router/router.go:351-360 | with a NUL in a label two different multisets share it |
| Keys.ScopeBytesInjective | internal/router/router.go:313-321 | NUL-free scopes of different namespace, number or content of parts never share hash input |
| Keys.DedupeKeyInjective | internal/router/router.go:342-349 | keys agree exactly for the same issue key, route, label hash and update time; colons in host and route are allowed, and the two issues are of one repository or no repository name has a `#` |
| Keys.IssueKeyInjective | internal/model/model.go:198-200 | an issue key determines host, owner, repository and number |
| Keys.SplitTime | internal/router/router.go:342-349 | the printed update time at the end of a key is determined by the key |
| Router.LatestMatchingIsLatest | internal/store/sqlite/sqlite.go:1097-1160 | the handoff found is a matching one that no matching one is later than, and none is found only when none matches |
| Router.GateDecides | internal/router/router.go:102-164 | on the fields of issue, route and handoffs: a pair is enqueued exactly when the route wants the issue and its gate is off, or has no relevant handoff and needs none, or accepts the latest relevant one (decision allowed, handing over to the route wanted, source fresh if asked); it is blocked for a reason exactly when that is the first demand not met |
| Router.DecidedRightly | internal/router/router.go:102-164 | the half of that which needs no distinct handoff ids |
| Router.OneLatest | internal/store/sqlite/sqlite.go:1097-1160 | ids being the primary key, there is one latest relevant handoff at most |
| Router.FreshSource | internal/router/router.go:204-226 | one handoff is fresh for two states of an issue only if they share update time or body, and only for the issue's own name or number |
| Router.TrimsOnlyEnds | internal/router/router.go:147-163 | a freshness setting without space at its ends counts only as it stands |
| Router.Router.RecordGateBlock | internal/store/sqlite/sqlite.go:1162-1216 | blank columns are refused and change nothing; first sight inserts with count one and no applied action, later ones count up and keep the mark |
| Router.Router.RoutePair | internal/router/router.go:59-96 | a pair of issue and route ends settled, and a settled pair is left alone; a row added stands for this pair: admitted with its task, or refused for the reason and under the scope recorded |
| Router.Router.EnqueuePair | internal/router/router.go:84-96 | a job added is pending with the issue, route, kind, priority and dedupe key of an admitted pair, available now |
| Router.Router.BlockPair | internal/router/router.go:66-83 | a block added carries the reason for which the pair is refused, the issue's generation, and the hash of the handoff or of the issue |
| Router.JobKeysAgree | internal/router/router.go:332-360 | two pairs have one dedupe key exactly when issue, route, label multiset and update time agree, for a hash that does not collide on their labels |
| Router.Router.Route | internal/router/router.go:43-100 | matched = blocked + created + existing, blocked = recorded + existing; the counters count real inserts; every job and block added stands for an admitted or refused pair of these issues and routes; a pass without error settles every pair; a pass over settled pairs inserts nothing |
| Router.AllStaySettled | internal/router/router.go:43-100 | settled pairs stay settled whatever happens to the jobs, as long as rows are kept |
| Router.Router.RouteTwice | internal/router/router.go:43-100 | a second pass creates no job and records no new gate block, whatever happened to the kept rows in between |
| TimeText.ParseInvertsFormat | internal/store/sqlite/sqlite.go:1461-1483 | parsing what was formatted gives the time back, for the zero time and all later times up to year 9999 |
| TimeText.ParseReadsNanoText | internal/store/sqlite/sqlite.go:1470-1483 | the fallback format, RFC 3339 with as many digits as needed, is read back too |
| TimeText.TextOrderIsTimeOrder | internal/store/sqlite/sqlite.go:1461-1469 | formatted texts compare as their times do, and are equal only for equal times |
| TimeText.LeaseGuardsAgree | internal/store/sqlite/sqlite.go:785-820 | the SQL lease guard accepts exactly the leases the Before checks do not call lost |
| TimeText.FieldsOfInstant | internal/store/sqlite/sqlite.go:1461-1469 | every time is the instant of its calendar fields |
| TimeText.DaysBeforeYearIs | internal/store/sqlite/sqlite.go:1461-1469 | the days before a year are those of the Gregorian rule |
| TimeText.DaysBeforeMonthIs | internal/store/sqlite/sqlite.go:1461-1469 | the days before each month, one more from March on in a leap year |
| TimeText.UnixEpoch | internal/store/sqlite/sqlite.go:1461-1469 | 1970 begins 62135596800 seconds after Go's zero time |
| TimeText.InstantAscends | internal/store/sqlite/sqlite.go:1461-1469 | calendar fields, compared one after the other, order times |
| TimeText.RenderOrder | internal/store/sqlite/sqlite.go:1461-1469 | text order of fixed-width rows is the order of their fields |
| TimeText.ReadRender | internal/store/sqlite/sqlite.go:1470-1483 | reading back a rendered row gives its fields and the rest of the text |
| TimeText.ShortTextsMisorder | internal/store/sqlite/sqlite.go:1470-1483 | a whole second written without a fraction parses correctly but sorts after every later time of that second |
| TimeText.FiveDigitYearsMisorder | internal/store/sqlite/sqlite.go:1461-1469 | every time of year 10000 sorts before every time of year 9999 |

## Left out

- Dispatcher.Wave.RunFrontier: the code polls for as long as its context lives; the model takes the number of polls as `patience`, so each finite run is covered and termination is not claimed. The same bound stands in Daemon.Loop.Refill, Daemon.Loop.Shutdown and Dispatcher.Wave.CancelActive.
- Recovery.RecoveryPass: states completeness without interference, as a concurrent runner can create new orphans at any time; Daemon.Loop.RecoverStale says what the interleaved scan does to each row it lists.
- TimeText.ParseTime: reads texts in UTC (zone Z), which is all the store writes; numeric zones, a comma before the fraction and times before year 1 are not modelled.
- Router.Router.Route: without a GitHub client, so gate-block actions, and marking them applied, are not modelled; an issue's open handoffs and fingerprints are inputs.
- Router.LatestMatchingIsLatest: handoff rows are an input; writing them and parsing comments are not modelled.
- Actions.Issue.Apply: nobody else edits the issue while an action is applied.
- GitHub.UnansweredTakenForAbsent: stated when the text does not hold the token; otherwise the text is the redacted one that GitHub.FailureText computes, and Actions.ValidatedSuccess speaks about that text. The transport's error is modelled as `Delete "ADDRESS": REASON` with the address printed as given.
- GitHub.Lower: lowers ASCII letters; no other character is lowered to a letter of "not found" or to a digit.
- Keys.DedupeKeyInjective: the hash is a parameter; injectivity is of what is hashed.
- GitHub effects are at least once: a crash between applying an action and finalizing repeats the action. Nothing stronger is true.
- A job that is released while preparing and claimed again is counted again; the cap is on launches, not on counts.
- SQLite itself, connections, migrations, row scanning and busy retries: an immediate transaction is one atomic step.
- Supervisor processes, signals, metadata and spec files: Launch, Inspect and Cancel may answer anything.
- The daemon's goroutines and tickers: one reconcile at a time is an assumption. Polling GitHub, the CLI, logging and job events are not part of this model.
- Configuration decoding and its other checks, path and environment building, and parsing of result files: independent of the protocol.
- The texts written to last_error, and which side effects a merged result action has: any are possible.
- AttemptScopeHash's choice of parts per route: the scope of a count is an input of the protocol, so every choice is covered.
