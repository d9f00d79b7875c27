# ZeroCode: a verified model of its queue, sandbox protocol, caches and playground algorithms

ZeroCode takes submissions over HTTP, queues them in a Postgres table, and has workers run them in a
sandbox. This project models the parts of it where being right is not obvious from one function, and
proves what they promise for every input, every interleaving and every run.

`dafny verify dfyconfig.toml` checks all of it. One module per file:

| module | models |
|---|---|
| `Admission` | the worker's slot and memory semaphores, its wake-up, drain loop and job tasks, step by step |
| `AdmissionRuns`, `Fairness` | what every run of them keeps: safety, progress, wake-ups; who gets memory first |
| `Table`, `Statements` | the statements run against the submissions table, and every interleaving of them |
| `Executors` | the table with live executors and time: when a row can have two of them |
| `Worker` | one claimed job: attempts, retry rule, directories, what is written and published |
| `Barrier` | the compile-to-run barrier between child, barrier thread and cgroup |
| `WallBudget` | the wall-clock killer and its two budgets |
| `Ownership` | the registry of owned children against the background reaper |
| `Handshake` | the ready/start handshake between the worker and the child it forks |
| `Triage` | from a reaped child to a status |
| `Status` | statuses, signals and the column pair they are stored in |
| `Completion` | a request waiting for its row, against workers that write and publish |
| `Keys` | the three content keys, fed to a hasher piece by piece |
| `ResultCache` | the result cache in front of the queue, in every run |
| `Artifact` | packing, piping, caching and restoring compile outputs |
| `Traces`, `Texts`, `Wrappers` | runs of a transition system and what every run keeps; joining and mapping lists; options and results |
| `LineDiff`, `Csv`, `Compare` | the playground's diff, CSV import and export, comparison modes |
| `Sse` | the incremental event-stream reader |

Algorithms keep their loops and are proved against definitions of their own. The concurrent protocols
are transition systems: a state, the actions of each party with their guards, and reachability by
`Traces.Runs` over all finite action sequences. Where one decision carries a protocol (an order of two steps, a
policy of the surroundings), it is a parameter, and the main theorem says that the property holds in
every run if and only if the parameter has the value the code relies on. The "only if" half is a
concrete run.

## What the proofs found

The code is modelled as it is. These are places where it does less, or needs more, than its comments
or documentation say; each has a lemma with the inputs or the run that shows it, and the exact condition.

- Reaper: an unregistered PID that the reaper has peeked can be collected by its owner and reissued to
  a new child before the reaper's own wait, which then takes the new child's status. Not reusing a PID
  while it is registered is not enough (`Ownership.PeekedPidIsStolen`; exactly when:
  `Ownership.StatusesKeptExactly`).
- Handshake: when the attach to the cgroup or the read of the ready byte fails, the worker returns, the
  start pipe closes, and the child takes that for the start: it goes on outside its cgroup and nobody
  waits for it (`Handshake.FailedAttachLetsTheChildGo`; exactly when: `Handshake.ContainedExactly`).
- Wall budget: a job can outlive both budgets by two poll intervals, not one
  (`WallBudget.OnePollIsEnoughExactly`, `WallBudget.LongestWaitExactly`), without bound if the kill fails
  (`WallBudget.FailedKillHasNoBound`), and a barrier published between
  the two readings of one iteration costs the fresh run its budget (`WallBudget.BarrierBetweenReadings`;
  exactly when: `WallBudget.EarlyKillExactly`).
- CPU bill: a job killed while it compiles reports the compiler's CPU as run CPU
  (`Barrier.CompilerIsBilled`), and a program that exits with 253 reports none
  (`Barrier.SentinelProgramIsNotBilled`), nor does any where the counter cannot be read at the end
  (`Barrier.UnreadCpuIsNotBilled`; exactly when: `Barrier.ReportedCpuExactly`).
- Compile cache: a kill while the archive is being sent, a send or a read that stops and an archive over
  64 MiB all store a prefix, because the status is not a compile error
  (`Barrier.KillWhilePackingStoresAPrefix`, `Barrier.StoppedSendStoresAPrefix`,
  `Barrier.StoppedReadStoresAPrefix`, `Barrier.OverCapStoresAPrefix`; exactly when:
  `Barrier.ReceivedIsWholeExactly`, `Artifact.Fill`).
- Barrier: a failed read of the acknowledgement, or of the phase byte, which closes the pipe the
  acknowledgement would come through, lets the program run ahead of the barrier, under the compile
  ceilings (`Barrier.RunsAhead`; exactly when: `Barrier.RunFollowsBarrierExactly`,
  `Barrier.RunCeilingsExactly`).
- A compile command whose every argument holds a NUL byte is predicted to compile and does not, so the
  program runs under the compile ceilings (`Barrier.PredictionIsRightExactly`, `Barrier.RunCeilingsExactly`).
- Retry: a first attempt that leaves its cgroup directory behind makes the second one fail
  (`Worker.LeftoverDoomsTheRetry`; exactly when: `Worker.RetrySucceedsExactly`).
- A program that exits with 253 is reported as a compile error, and the sentinel shows in the exit code
  after an OOM or wall kill (`Triage.StatusMeaning`, `Triage.SentinelLeaksExactly`). No branch produces
  `OutputLimitExceeded` (`Triage.OnlyVerdictsFromReapedChildren`).
- Verdicts: a helper of the compiler killed for memory hides the compile error (`Barrier.HelperOutOfMemory`),
  a killed compiler is a crashed program where the OOM counter cannot be read (`Barrier.CompilerOutOfMemory`),
  and a program whose kill failed is reported with a signal it never got
  (`Barrier.FailedKillIsStillTimeout`; what each status says of the run: `Barrier.VerdictTellsTheRun`).
- Result cache: the payload TTL is configurable; with one shorter than a request may wait, a row scrubbed
  meanwhile is cached without its output (`ResultCache.ScrubbedEntryLies`; exactly when:
  `ResultCache.HitsAreTruthfulExactly`). Limits in the row need not have the key the request computed
  (`ResultCache.RowLimitsHaveTheKeyExactly`).
- Event stream endpoint: it looks at the row before it subscribes, can miss `Finished`, and has no
  deadline (`Completion.LookFirstMisses`; exactly when: `Completion.SubscribeFirstExactly`).
- Event data: leading empty `data:` values are swallowed (`Sse.DataIsJoinExactly`).

## Model

| member | source | states |
|---|---|---|
| Admission.NewRunner | crates/zerocode-worker/src/runner.rs:77-86 | both semaphores get the permits they were configured with, at least one each, and memory no more than a semaphore can hold |
| Admission.GrantKeeps | crates/zerocode-worker/src/runner.rs:177-184 | handing released memory to waiters in FIFO order conserves slots and memory, only moves waiters to running, and stops where the head cannot be served |
| Admission.StepKeepsInv | crates/zerocode-worker/src/runner.rs:149-238 | every step of loop, tasks and surroundings keeps conservation of slots and memory, the waiter queue, and a reason for being parked |
| Admission.ReachableInv | crates/zerocode-worker/src/runner.rs:98-238 | every reachable state has that invariant, by induction over all action sequences |
| AdmissionRuns.RowsAreConserved | crates/zerocode-worker/src/runner.rs:149-238 | in every run a row left the queue exactly as often as it was there or came, less once if it is still there: none is lost, none claimed twice |
| AdmissionRuns.AdmissionIsSafe | crates/zerocode-worker/src/runner.rs:149-184 | in every run the i-th task is the i-th claimed job, running jobs are at most max_parallel, and free memory is the budget less the running jobs' own limits, each capped at the budget and at least one: so the jobs that run fit the budget |
| AdmissionRuns.WaitersNeedMoreThanIsFree | crates/zerocode-worker/src/runner.rs:177-184 | the first waiter's own limit is more than what is free, or nothing is; an oversized job waits only while another holds memory |
| Fairness.NobodyOvertakes | crates/zerocode-worker/src/runner.rs:177-184 | memory is handed out in turn: in every run no job has got its memory that asked later than one still waiting, however little it needs |
| AdmissionRuns.LoopSleepsExactly | crates/zerocode-worker/src/runner.rs:98-184 | in every run the loop is parked if and only if its last step found no slot, no row or no database, and holds a slot of its own if and only if it has just acquired one |
| AdmissionRuns.PollClaims | crates/zerocode-worker/src/runner.rs:98-184 | from every reachable parked state with a free slot, a wake-up or the poll leads to a claim of any queued row, with that row's limit |
| AdmissionRuns.FailedClaimNeedsThePoll | crates/zerocode-worker/src/runner.rs:124-147 | for every configuration and row a run in which a failed claim leaves the loop asleep beside that row and free slots with no wake-up coming, so that only the poll goes on |
| AdmissionRuns.RowsGoElsewhere | crates/zerocode-worker/src/runner.rs:149-184 | from every reachable state another worker may take any queued row, and nothing else changes |
| AdmissionRuns.MemoryNeverStalls | crates/zerocode-worker/src/runner.rs:177-184 | whenever a task waits for memory, some task holds memory, because every request is clamped to the budget |
| AdmissionRuns.NoWakeUpIsLost | crates/zerocode-worker/src/runner.rs:106-147 | in every run, parked with a free slot and a queued row implies a stored permit, a task between slot drop and notify, an arrival of that row after the last empty claim, or that the last claim tried has failed |
| AdmissionRuns.OwnStepsTerminate | crates/zerocode-worker/src/runner.rs:149-238 | every own step lowers a measure, so the worker cannot spin |
| AdmissionRuns.RestMeansDrained | crates/zerocode-worker/src/runner.rs:106-122 | where no own step is left, all tasks are done, all permits are back, and a queued row arrived after the last empty claim unless the last claim tried has failed |
| AdmissionRuns.SilentReleaseStrands | crates/zerocode-worker/src/runner.rs:106-122 | without a wake-up on release there is a run that strands a queued row beside a free slot |
| AdmissionRuns.EarlyNotifyStrands | crates/zerocode-worker/src/runner.rs:226-235 | notifying before the slot is released has such a run too |
| AdmissionRuns.OnlyTheShippedOrderWorks | crates/zerocode-worker/src/runner.rs:226-235 | over all configurations and runs no wake-up is lost if and only if the notify comes after the release |
| Table.Submissions.InsertSubmission | crates/zerocode-api/src/db.rs:26-52 | is the insert step of the transition system and keeps the table invariant; the new row is queued with everything it was submitted with and nothing else, and no other row changes; a used token fails and changes nothing |
| Table.Submissions.ClaimNext | crates/zerocode-worker/src/db.rs:33-82 | is a claim step, of an oldest queued row, keeps the invariant and hands out the submitted source; nothing to claim if and only if nothing is queued |
| Table.Submissions.WriteResult | crates/zerocode-worker/src/db.rs:84-121 | keeps the invariant whatever the row was; the outcome reads back from the row, inputs and claim are untouched, a missing row stays missing |
| Table.Submissions.WriteSandboxFailure | crates/zerocode-worker/src/db.rs:128-155 | keeps the invariant whatever the row was; the row has failed, and inputs, claim and any earlier output are untouched |
| Table.SweepRequeuesStaleRows | crates/zerocode-worker/src/db.rs:157-167 | a sweep leaves nothing stale; what it changes is exactly what was stale, claimed more than 60 s and twice its wall limit ago, and that is queued again at its old place with its submitted source and stdin |
| Table.Submissions.SweepStale | crates/zerocode-worker/src/db.rs:157-167 | the statement run row by row does that, keeps the invariant, and counts the rows it reset |
| Table.ScrubEmptiesOldRows | crates/zerocode-worker/src/retention.rs:74-96 | a scrub leaves no output and no source on rows finished before the cutoff, no stdin and no compiler output on what it changes, and changes no other row and no status |
| Table.Submissions.ScrubPayloads | crates/zerocode-worker/src/retention.rs:74-96 | the statement run row by row does that and keeps the invariant |
| Table.Submissions.ExpireOldRows | crates/zerocode-worker/src/retention.rs:98-114 | run row by row, keeps exactly the rows not finished before the cutoff, unchanged, keeps the invariant and counts the others |
| Table.Submissions.Perform | crates/zerocode-worker/src/db.rs:33-167 | each statement amounts to at most one step of the transition system and keeps the invariant |
| Table.Submissions.Serve | crates/zerocode-worker/src/db.rs:33-167 | whatever statements arrive in whatever order, the table goes through a run of the transition system, so the results on all runs hold of it |
| Statements.SelectFirst | crates/zerocode-worker/src/db.rs:39-53 | finds a first matching row, or nothing exactly when none matches |
| Statements.UpdateWhere | crates/zerocode-worker/src/db.rs:157-163 | changes the matching rows and no others, and counts them |
| Statements.DeleteWhere | crates/zerocode-worker/src/retention.rs:100-103 | drops the matching rows and no others, and counts them |
| Table.StepKeepsTable | crates/zerocode-worker/src/db.rs:39-163 | every statement keeps: finished_at is set exactly on terminal rows, a queued row has no claim and a processing row has one, live rows keep the submitted source |
| Table.RunKeepsTable | crates/zerocode-worker/src/db.rs:39-163 | so does every run of inserts, claims, writes, sweeps and retention passes |
| Table.FinishedIsForever | crates/zerocode-worker/src/db.rs:91-163 | in every run a terminal row never becomes queued or processing again and a deleted one stays deleted, unless its very token is submitted anew |
| Table.ClaimsRunTheSubmittedSource | crates/zerocode-worker/src/db.rs:39-53 | in every run a claim hands out the source the token was submitted with |
| Table.RetentionSparesLiveRows | crates/zerocode-worker/src/retention.rs:76-103 | retention leaves every row that can still be executed exactly as it was |
| Table.RetentionTakesOnlyOldRows | crates/zerocode-worker/src/retention.rs:76-103 | a row is deleted if and only if it finished longer ago than the TTL; scrubbing changes exactly those of such rows that still have output or source, and no status |
| Executors.WaitLimitExactly | crates/zerocode-sandbox/src/native/exec.rs:129-135 | the time limit on one attempt's wait is exactly what the two budgets and the poll interval make it |
| Executors.SlackIs | crates/zerocode-worker/src/runner.rs:351-385 | what two attempts can add to twice the wall limit: the time outside the wait loops, memory wait included, both compile budgets, the polls and the reaping after kills |
| Executors.StepKeepsInv | crates/zerocode-worker/src/db.rs:39-163 | every step keeps: the stretches of an execution add up to its age, each within its limit, and within the bound every executor holds its own claim |
| Executors.ExecutionsAreBounded | crates/zerocode-worker/src/runner.rs:351-385 | in every run an execution with at most two attempts ends within that slack plus twice its wall limit |
| Executors.SingleExecutorExactly | crates/zerocode-worker/src/db.rs:157-163 | in every run no token has two executors if and only if that slack is at most 60 s |
| Executors.VerdictsStandWithinBound | crates/zerocode-worker/src/db.rs:84-163 | within that bound nothing but retention changes a finished row |
| Executors.LateWriterOverwrites | crates/zerocode-worker/src/db.rs:136-142 | for every deployment beyond the bound there is a run in which a swept worker replaces an accepted row by a failure |
| Executors.VanishedJobIsRetried | crates/zerocode-worker/src/db.rs:157-167 | for every deployment a job whose worker vanished can be claimed again after a sweep, with its source, if and only if more than 60 s and twice its wall limit have passed since the claim |
| Worker.ExecuteWithRetry | crates/zerocode-worker/src/runner.rs:360-385 | at most two attempts, a second one if and only if the first failed with a retryable error, and the last attempt's answer |
| Worker.SandboxError.IsRetryable | crates/zerocode-sandbox/src/lib.rs:131-142 | every error is retried but a missing feature, an unmet kernel requirement and a rejected seccomp or landlock policy |
| Worker.Process | crates/zerocode-worker/src/runner.rs:241-342 | succeeds if and only if the language is known, a permitted attempt succeeded and the write worked; then one terminal write and Finished directly after it; an artifact is stored if and only if the language compiles, there is one and the run was no compile error |
| Worker.RunTask | crates/zerocode-worker/src/runner.rs:191-225 | at most one successful terminal write; Finished exactly once and last; a result row only from a successful attempt; a sandbox error ends as sandbox_failure; a row backs Finished if and only if some write worked |
| Worker.Host.Execute | crates/zerocode-sandbox/src/native/linux.rs:14-108 | result and directories after an attempt on every path: scratch gone unless it could not be filled or removed, cgroup gone unless its limits could not be written or it is still populated |
| Worker.RetrySucceedsExactly | crates/zerocode-worker/src/runner.rs:360-385 | the job ends in a result if and only if no cgroup directory is in the way and the first attempt has no fault, or fails before it made its directory or retryably with an empty cgroup, and the second has no fault |
| Worker.LeftoverDoomsTheRetry | crates/zerocode-worker/src/runner.rs:360-385 | a lost child with a process left in its cgroup makes the second attempt fail whatever the host does |
| Worker.VerdictsComeFromReapedChildren | crates/zerocode-sandbox/src/native/linux.rs:67-108 | a result's status is the classification of a child that was reaped; a failed run never yields one |
| Barrier.PredictionIsRightExactly | crates/zerocode-sandbox/src/native/exec.rs:679-689 | the child compiles if and only if nothing is cached and some argument of the command has no NUL byte; the parent predicts otherwise if and only if there are arguments and all of them have one |
| Barrier.StepKeepsInv | crates/zerocode-sandbox/src/native/exec.rs:258-304 | every step of child, barrier thread and killers, and every fault of the pipes, the cgroup files and the kill, keeps the barrier's invariant |
| Barrier.CompilerHasItsRoom | crates/zerocode-sandbox/src/native/linux.rs:36-48 | in every run the compiler works under the least ceilings that cover both its own limits, if any, and those of the run |
| Barrier.RunFollowsBarrierExactly | crates/zerocode-sandbox/src/native/exec.rs:519-541 | in every interleaving no step of a compiled program precedes the acknowledgement, the CPU snapshot or the end of the send, if and only if neither the thread's read of the phase byte nor the child's read of the acknowledgement fails |
| Barrier.RunsAhead | crates/zerocode-sandbox/src/native/exec.rs:258-263 | for every job that compiles, where either read can fail, a run that starts the program before the barrier under the compiler's ceilings |
| Barrier.RunPhaseIsReached | crates/zerocode-sandbox/src/native/exec.rs:258-304 | every job has a run to its run phase, under the compile limit where that is the larger one and the barrier does not write, under its own limit otherwise |
| Barrier.RunCeilingsExactly | crates/zerocode-sandbox/src/native/linux.rs:36-48 | the program runs under its own memory and pids ceilings in every interleaving, unless a compile with a larger limit is announced and the child does not compile, one of those reads fails or the barrier's write does not take effect |
| Barrier.BillIsRunCpuExactly | crates/zerocode-sandbox/src/native/triage.rs:33-37 | billed plus snapshot equals what was burnt if and only if the counter can be read at the end or the snapshot has it all; the bill is the program's CPU if and only if the counter was read at both ends, before the program began, or there was nothing to get wrong |
| Barrier.ReportedCpuExactly | crates/zerocode-sandbox/src/native/triage.rs:15-148 | the same for the figure in the result; where the child left the compile sentinel, if and only if the program never started or burnt none |
| Barrier.CompilerIsBilled | crates/zerocode-sandbox/src/native/triage.rs:33-62 | for every job that compiles and every amount, a run whose compiler is killed and billed as the program |
| Barrier.SentinelProgramIsNotBilled | crates/zerocode-sandbox/src/native/triage.rs:84-106 | for every job and amount, a run whose program exits 253 and is billed nothing |
| Barrier.UnreadCpuIsNotBilled | crates/zerocode-sandbox/src/native/cgroup.rs:141-154 | for every job and amount, where the counter cannot be read at the end, a run that is billed nothing and accepted under any limit |
| Barrier.ReceivedIsWholeExactly | crates/zerocode-sandbox/src/native/exec.rs:519-541 | past the phase byte the parent has the whole archive if and only if neither sending nor reading stopped and the 64 MiB cap is not exceeded; before it, whatever the parent has comes from a killed job |
| Barrier.KillWhilePackingStoresAPrefix | crates/zerocode-worker/src/runner.rs:301-315 | for every proper prefix of the archive there is a killed run, a wall timeout, that received exactly such a prefix and so has the worker store it |
| Barrier.StoppedSendStoresAPrefix | crates/zerocode-sandbox/src/native/exec.rs:638-655 | and an accepted run in which sending stopped there |
| Barrier.StoppedReadStoresAPrefix | crates/zerocode-sandbox/src/native/exec.rs:725-751 | and an accepted run in which everything was sent and reading stopped there |
| Barrier.OverCapStoresAPrefix | crates/zerocode-sandbox/src/native/exec.rs:50-55 | for every archive over the cap there is an accepted run that stores only its first 64 MiB |
| Barrier.VerdictTellsTheRun | crates/zerocode-sandbox/src/native/triage.rs:15-148 | what a result says about the whole run that led to it, in every interleaving: OOM if and only if anything in the cgroup was OOM-killed and the counter can be read, then wall if and only if the deadline came, then compile error, exit and signal by the step that ended the child |
| Barrier.FailedCompileEnds | crates/zerocode-sandbox/src/native/exec.rs:617-632 | for every job that compiles and every amount, a run whose compiler fails: a compile error, the program never started, nothing received |
| Barrier.UnforkedCompilerIsNonZeroExit | crates/zerocode-sandbox/src/native/exec.rs:355-378 | a compiler that could not be forked or waited for is reported as the program exiting with 127 |
| Barrier.CompilerOutOfMemory | crates/zerocode-sandbox/src/native/triage.rs:42-54 | a compiler killed for memory is a memory verdict, and a SIGKILL of a program that never started where the counter cannot be read |
| Barrier.HelperOutOfMemory | crates/zerocode-sandbox/src/native/triage.rs:42-54 | a helper of the compiler killed for memory hides the compile error and shows the sentinel as the exit code |
| Barrier.FailedKillIsStillTimeout | crates/zerocode-sandbox/src/native/triage.rs:56-66 | a program whose kill fails and that exits by itself is a wall timeout, with its exit code and a signal it never got |
| Barrier.LostSignalHangs | crates/zerocode-sandbox/src/native/exec.rs:519-541 | a phase byte that is not written leaves child and barrier thread waiting for each other: only a kill goes on from there |
| WallBudget.BudgetOf | crates/zerocode-sandbox/src/native/exec.rs:129-135 | the run budget is the wall limit; the compile budget is the larger of the compile limit and the wall limit when a compile with its own limit is announced, and the wall limit otherwise |
| WallBudget.WaitWithTimeout | crates/zerocode-sandbox/src/native/exec.rs:760-808 | stops at the first poll that ends the wait, kills exactly when that poll saw the child alive past its deadline, and reports the status it reaped |
| WallBudget.KillMeansDeadlinePassed | crates/zerocode-sandbox/src/native/exec.rs:760-808 | a kill means the deadline of the barrier value read in that iteration has passed; a run seen past its barrier had its whole budget |
| WallBudget.EarlyKillExactly | crates/zerocode-sandbox/src/native/exec.rs:760-808 | a run that had begun is killed before its budget is up if and only if its barrier was published after that iteration had read it |
| WallBudget.BarrierBetweenReadings | crates/zerocode-sandbox/src/native/exec.rs:760-808 | for every pair of budgets there is a wait in which that happens |
| WallBudget.WaitIsBounded | crates/zerocode-sandbox/src/native/exec.rs:760-808 | with polls at most delta apart the poll that ends a wait comes within both budgets plus two deltas less two ticks, or one budget plus delta less one tick without a barrier |
| WallBudget.LongestWaitExactly | crates/zerocode-sandbox/src/native/exec.rs:760-808 | a limit covers every wait, the reaping after a kill included, if and only if it covers that long and the longest reaping, for every pair of budgets and every delta |
| WallBudget.FailedKillHasNoBound | crates/zerocode-sandbox/src/native/exec.rs:781-787 | where a kill does not end the child, no limit covers every wait |
| WallBudget.OnePollIsEnoughExactly | crates/zerocode-sandbox/src/native/exec.rs:760-808 | both budgets plus one poll cover every wait if and only if the poll interval and the reaping together take at most two ticks |
| Ownership.OwnedRun | crates/zerocode-sandbox/src/native/exec.rs:177-218 | a run that registers, waits and unregisters finds its child through any number of reaper drains before and after the exit, leaves the registry as it was and takes nobody else's status |
| Ownership.ProcessTable.Collect | crates/zerocode-sandbox/src/native/exec.rs:760-808 | the owner's wait takes exactly that child's status, and finds it if and only if it is there |
| Ownership.ProcessTable.DrainOrphans | crates/zerocode-worker/src/reaper.rs:75-121 | reaps a prefix of unowned zombies, stops at the first owned one, leaves every owned one, and terminates |
| Ownership.StepKeepsInv | crates/zerocode-sandbox/src/native/exec.rs:177-218 | where none of the three hazards can happen every step of runs, handshakes, kernel and reaper keeps: each waiting owner's child is there and is its own |
| Ownership.EarlyExitIsStolen | crates/zerocode-sandbox/src/native/exec.rs:177-218 | a child whose unshare, ready write or start read fails can exit unregistered and lose its status to the reaper |
| Ownership.PeekedPidIsStolen | crates/zerocode-worker/src/reaper.rs:75-121 | so can a child that gets a PID the reaper has peeked and not yet waited for |
| Ownership.RegisteredPidIsStolen | crates/zerocode-sandbox/src/owned_children.rs:61-74 | so can a child that gets a PID still registered by a finished run |
| Ownership.StatusesKeptExactly | crates/zerocode-worker/src/reaper.rs:75-121 | in every interleaving, handshakes included, the reaper takes no owned status and no owner sees ECHILD if and only if no PID is reissued while registered, none while peeked, and none of the child's own three steps fails |
| Ownership.RegistryExactly | crates/zerocode-sandbox/src/owned_children.rs:58-74 | without the hazards, in every run the registry holds exactly the children that a run has registered and not yet let go: no early end leaves one behind |
| Ownership.ProcessesAreNumberedApart | crates/zerocode-worker/src/reaper.rs:75-121 | whatever PIDs are reissued, no two processes and no two runs of the model are confused |
| Ownership.ReaperTurn | crates/zerocode-worker/src/reaper.rs:75-121 | from every reachable state one turn of the reaper on a zombie takes it if and only if nobody has registered it, and changes nothing else |
| Ownership.OrphansAreReaped | crates/zerocode-worker/src/reaper.rs:75-121 | from every reachable state an orphan that comes to the worker and exits leaves no trace |
| Ownership.AbandonedChildIsReaped | crates/zerocode-sandbox/src/native/exec.rs:177-218 | nor does a child whose run returned early because the attach failed |
| Handshake.StepKeepsInv | crates/zerocode-sandbox/src/native/exec.rs:196-218 | every step of parent and child, faults included, keeps the handshake's invariant |
| Handshake.ContainedExactly | crates/zerocode-sandbox/src/native/exec.rs:196-218 | in every interleaving a child goes on only with its identity maps, in its cgroup and waited for, if and only if the parent's read, map write and attach do not fail |
| Handshake.FailedAttachLetsTheChildGo | crates/zerocode-sandbox/src/native/exec.rs:211-218 | a failed attach closes the start pipe, and the child goes on unattached and unwaited |
| Handshake.FailedMapsLetTheChildGo | crates/zerocode-sandbox/src/native/exec.rs:203-209 | after a failed map write the kill meets an empty cgroup and the child goes on unmapped |
| Handshake.FailedReadLetsTheChildGo | crates/zerocode-sandbox/src/native/exec.rs:196-201 | after a failed read of the ready byte the child goes on with nothing done for it |
| Handshake.ExitsRegisteredExactly | crates/zerocode-sandbox/src/native/exec.rs:410-418 | in every interleaving no child exits before it is registered if and only if its own unshare, ready write and start read do not fail |
| Triage.StatusMeaning | crates/zerocode-sandbox/src/native/triage.rs:41-148 | for each status exactly when it is reported, the order OOM, wall, compile sentinel, run CPU, exit included |
| Triage.OnlyVerdictsFromReapedChildren | crates/zerocode-sandbox/src/native/triage.rs:41-148 | every classification is terminal, and a verdict unless the wait status is unclassifiable |
| Triage.SentinelLeaksExactly | crates/zerocode-sandbox/src/native/triage.rs:41-84 | the sentinel shows in the exit code if and only if the child left it and was OOM or wall killed |
| Triage.CompileErrorHasNoRunPhase | crates/zerocode-sandbox/src/native/triage.rs:84-110 | a compile error shows no output and bills no run CPU; everything else passes output and bill through |
| Triage.FieldsMeaning | crates/zerocode-sandbox/src/native/triage.rs:15-198 | which exit code, signal, memory figure, compile output and compile time come with each status |
| Status.SignalColumnRoundTrip | crates/zerocode-core/src/status.rs:152-167 | a stored signal number reads back, and which signals do not |
| Status.SignalNamesExactly | crates/zerocode-core/src/status.rs:151-167 | a signal number is reported under a name if and only if it is the number of that signal on Linux |
| Status.SignalJsonRoundTrip | crates/zerocode-worker/src/db.rs:169-212 | every signal detail reads back |
| Status.StatusColumnsRoundTrip | crates/zerocode-api/src/db.rs:132-142 | every status the worker writes, the API reads back, detail included |
| Completion.WaitForCompletion | crates/zerocode-api/src/routes/submissions.rs:185-254 | the answer is the last look; no earlier look failed or had anything to return; unless it gave up the answer is an error, terminal, or follows a Finished; how many looks each way of ending takes |
| Completion.StepKeepsInv | crates/zerocode-worker/src/runner.rs:204-225 | every step of workers, table and waiter keeps: nobody listens for a Finished that has gone by |
| Completion.AnswersAreTerminal | crates/zerocode-api/src/routes/submissions.rs:185-254 | in every run an answer before the deadline is terminal unless a worker could not write its failure row |
| Completion.NoMissedCompletion | crates/zerocode-api/src/routes/submissions.rs:185-254 | from every reachable state with the terminal row written and published, the waiter's own steps lead to returning that row without the deadline |
| Completion.LookFirstMisses | crates/zerocode-api/src/routes/streaming.rs:24-42 | a run of the opposite order ends listening, the row accepted, with no step left to the waiter at all |
| Completion.SubscribeFirstExactly | crates/zerocode-api/src/routes/submissions.rs:192-206 | in every run nobody listens past a finished row if and only if the subscription comes before the look |
| Completion.UnwrittenFailureAnswers | crates/zerocode-worker/src/runner.rs:204-225 | a run in which Finished is published without a terminal row and the waiter returns the row still processing |
| Completion.EventsAreHeardInOrder | crates/zerocode-api/src/routes/submissions.rs:192-245 | in every run, what a subscribed waiter has still to hear is everything sent since it subscribed, in order and once, less what it heard |
| Completion.ClaimsAreConserved | crates/zerocode-worker/src/runner.rs:191-225 | in every run each claim is still at work, has published once, lost its Finished or died; the row is gone if and only if it was deleted, and otherwise shows the last claim, result or sweep |
| Completion.DeadlineAnswers | crates/zerocode-api/src/routes/submissions.rs:220-254 | from every reachable listening or polling state the deadline leads to an answer with the row as it is, or to the error of that look |
| Completion.LostFinishedNeedsTheDeadline | crates/zerocode-api/src/routes/submissions.rs:206-231 | for every final status a run whose Finished is lost and in which only the deadline gets the waiter to its finished row |
| Completion.DeletedRowNeedsTheDeadline | crates/zerocode-api/src/routes/submissions.rs:218-222 | a run in which the row is deleted between its Finished and the look that follows, and only the deadline ends the wait |
| Completion.DeadClaimIsRetried | crates/zerocode-worker/src/db.rs:157-163 | from every reachable state a claim whose worker dies is swept, claimed again and finished, and whoever listens hears of it |
| Keys.Hasher.constructor | crates/zerocode-cache/src/key.rs:20-20 | a hasher that has been fed nothing |
| Keys.Hasher.Update | crates/zerocode-cache/src/key.rs:20-37 | appends to what has been fed |
| Keys.ResultKey | crates/zerocode-cache/src/key.rs:14-39 | the digest is taken of the canonical result encoding |
| Keys.CompileKey | crates/zerocode-cache/src/key.rs:41-50 | the digest is taken of the canonical compile encoding |
| Keys.IdempotencyHash | crates/zerocode-api/src/routes/submissions.rs:517-531 | the digest is taken of the canonical idempotency encoding |
| Keys.LittleEndianInjective | crates/zerocode-cache/src/key.rs:22-36 | numbers that fit the width are determined by their bytes |
| Keys.LimitBytesInjective | crates/zerocode-cache/src/key.rs:28-36 | the encoded limits determine every limit |
| Keys.ResultInputInjective | crates/zerocode-cache/src/key.rs:14-39 | two result pre-images are equal if and only if language, source, stdin and limits are |
| Keys.CompileInputInjective | crates/zerocode-cache/src/key.rs:41-50 | two compile pre-images are equal if and only if language, source and options are |
| Keys.IdemInputInjective | crates/zerocode-api/src/routes/submissions.rs:517-531 | two idempotency pre-images are equal if and only if language, source and stdin are, absent and empty stdin apart |
| Keys.KindsAreDisjoint | crates/zerocode-cache/src/key.rs:14-50 | no pre-image of one kind is one of another |
| ResultCache.SameKeyExactly | crates/zerocode-api/src/routes/submissions.rs:80-85 | two requests share a key if and only if language, source and limits agree and their stdins are equal or each absent or empty; a worker then executes the same for both |
| ResultCache.RowLimitsHaveTheKeyExactly | crates/zerocode-api/src/db.rs:26-52 | the limits in the row have the request's key if and only if storing them changed nothing |
| ResultCache.StepKeepsVerdicts | crates/zerocode-api/src/routes/submissions.rs:161-172 | under every TTL and every digest every step keeps: each entry and each answer has a verdict reached on the job of a request with its key |
| ResultCache.StepKeepsInv | crates/zerocode-api/src/routes/submissions.rs:451-472 | with a TTL that covers the wait every step keeps: whole entries and answers are outcomes of a job with that key |
| ResultCache.EntriesAreVerdicts | crates/zerocode-api/src/routes/submissions.rs:161-172 | in every run, under every TTL and every digest, each entry has a verdict that a worker reached by executing what a request with that key asks for |
| ResultCache.HitsAreVerdicts | crates/zerocode-api/src/routes/submissions.rs:80-89 | in every run each answer from the cache is a verdict, with an injective digest one that a worker reached by executing the request's own language, source and stdin, an absent stdin being empty |
| ResultCache.HitsAreTruthfulExactly | crates/zerocode-api/src/routes/submissions.rs:80-89 | in every run each answer from the cache is, output included, what a worker got by executing the request's own language, source and stdin under its limits, if and only if the payload TTL is at least the longest wait |
| ResultCache.ScrubbedEntryLies | crates/zerocode-worker/src/retention.rs:74-96 | with any shorter TTL, for every program with output, a run in which an identical request is told the right status and metrics and that it printed nothing, on either stream |
| ResultCache.FailuresAreNotStored | crates/zerocode-api/src/routes/submissions.rs:161-172 | from every reachable state, a waited-for row that has failed or is deleted when the wait returns leaves the cache as it was |
| ResultCache.EvictedRunsAgain | crates/zerocode-api/src/routes/submissions.rs:80-150 | from every reachable state, a request whose entry was evicted is not answered from the cache and gets a row of its own |
| ResultCache.ResultCache.Get | crates/zerocode-cache/src/result.rs:44-46 | the entry under the key, if any |
| ResultCache.ResultCache.Insert | crates/zerocode-cache/src/result.rs:48-50 | replaces the entry under that key and no other |
| ResultCache.Api.Create | crates/zerocode-api/src/routes/submissions.rs:80-150 | answers from the cache under the request's key without touching the table, or inserts exactly one row |
| ResultCache.Api.ReturnWait | crates/zerocode-api/src/routes/submissions.rs:155-172 | stores the row under the request's key exactly when it is finished and a verdict |
| Artifact.PackDir | crates/zerocode-sandbox/src/artifact.rs:24-43 | lists every path below a kept top-level name exactly once with content and mode, and nothing else |
| Artifact.SendArtifact | crates/zerocode-sandbox/src/native/exec.rs:638-655 | sends exactly the bytes the writes took, a prefix, and stops short only on an error, a zero-byte write or the end of the child |
| Artifact.ReadCapped | crates/zerocode-sandbox/src/native/exec.rs:725-751 | keeps the first cap bytes of the stream, all of it if and only if it fits |
| Artifact.CompileCache.Get | crates/zerocode-cache/src/compile.rs:34-50 | the blob under the key, if any |
| Artifact.CompileCache.Insert | crates/zerocode-cache/src/compile.rs:52-69 | the first writer of a key wins |
| Artifact.CompileCache.PurgeBefore | crates/zerocode-cache/src/compile.rs:72-80 | keeps exactly the rows not older than the cutoff, unchanged, and counts the others |
| Artifact.Box.StageInputs | crates/zerocode-sandbox/src/native/mounts.rs:161-167 | an empty box then holds exactly source and stdin |
| Artifact.Box.UnpackInto | crates/zerocode-sandbox/src/artifact.rs:49-56 | every entry in turn overwrites its path, up to the first fault, which is reported |
| Artifact.Box.Restore | crates/zerocode-sandbox/src/native/mounts.rs:173-188 | unpacks the blob; a faulty one also becomes the executable prog |
| Artifact.UnpackedListing | crates/zerocode-sandbox/src/artifact.rs:49-56 | unpacking a listing lays it over the box whatever the order of its entries |
| Artifact.HitIsFreshExactly | crates/zerocode-sandbox/src/native/mounts.rs:161-188 | the box after a hit is the box a fresh compile leaves if and only if the compiler leaves the inputs alone, puts no symlink or special file at the top, and has the same outputs as the run that was packed |
| Artifact.Fill | crates/zerocode-worker/src/runner.rs:301-315 | after a miss a row is stored if and only if anything was received, the compile worked and the insert does; its blob is a prefix of the archive, the whole of it if and only if every byte was sent and read and the cap suffices, and then it decodes to the box's outputs; no other row changes |
| Artifact.Hit | crates/zerocode-worker/src/runner.rs:261-292 | from that blob to the restored box, with this submission's own source and stdin, under the conditions above |
| LineDiff.SplitLinesSpells | web/app/src/playground/TestsPanel.tsx:111-112 | splitting loses nothing but the CR of a CR LF pair |
| LineDiff.LcsIsUpperBound | web/app/src/playground/TestsPanel.tsx:113-118 | no common subsequence is longer than the value of the recurrence |
| LineDiff.SamesAreCommon | web/app/src/playground/TestsPanel.tsx:119-128 | the kept lines of any script are a common subsequence of the texts it spells |
| LineDiff.ScriptComesFirst | web/app/src/playground/TestsPanel.tsx:119-128 | of all scripts that spell two texts and keep as many lines, the walk's is first: at the first difference it keeps before it deletes and deletes before it adds |
| LineDiff.FillTable | web/app/src/playground/TestsPanel.tsx:113-118 | the table holds the recurrence's value at every position |
| LineDiff.Walk | web/app/src/playground/TestsPanel.tsx:119-128 | the walk spells both texts keeps as many lines as the table's corner says, and is that first script |
| LineDiff.LineDiff | web/app/src/playground/TestsPanel.tsx:110-129 | same and del lines spell the first text, same and add lines the second, no script that spells them keeps more lines, and of those that keep as many it comes first |
| Csv.ParseCSV | web/app/src/playground/TestsPanel.tsx:174-204 | whatever table the text is a rendering of, the result is that table's test cases; the character loop and the row loop compute the import the lemmas below are about |
| Csv.ImportOfRendering | web/app/src/playground/TestsPanel.tsx:174-204 | importing any rendering of a table (LF or CR LF per line, last line with or without, cells quoted, plain or partly quoted, any number of cells) gives the first two cells of every line in order, missing ones empty, without blank lines and without a first line that spells stdin in any case |
| Csv.ImportOfExport | web/app/src/playground/TestsPanel.tsx:174-218 | what importing an export gives, for every list of cases |
| Csv.SurvivorsExactly | web/app/src/playground/TestsPanel.tsx:213-218 | that is the list itself if and only if no case is blank and no unquoted field holds a CR |
| Csv.RoundTrip | web/app/src/playground/TestsPanel.tsx:174-218 | parse after export is the identity if and only if every case can be exported |
| Compare.NormKeepsWords | web/app/src/playground/TestsPanel.tsx:70-75 | the trim normalisation keeps the sequence of words |
| Compare.TrimIgnoresLineEnds | web/app/src/playground/TestsPanel.tsx:70-75 | the trim normalisation of a text, however it is written as lines, drops the blanks at line ends and the final line end and nothing else |
| Compare.EveryTextIsLines | web/app/src/playground/TestsPanel.tsx:70-75 | every text can be written as such lines |
| Compare.PiecesAreWords | web/app/src/playground/TestsPanel.tsx:78-86 | splitting a trimmed text yields its words, or one empty piece |
| Compare.SquashConcatenatesWords | web/app/src/playground/TestsPanel.tsx:76-77 | removing whitespace concatenates the words |
| Compare.TokensMeansWords | web/app/src/playground/TestsPanel.tsx:78-86 | tokens agree if and only if the word sequences are equal |
| Compare.ModesMean | web/app/src/playground/TestsPanel.tsx:65-88 | what each mode compares: the texts, their trimmed lines, their words, their words run together; an empty expectation always agrees |
| Compare.ModesFormAChain | web/app/src/playground/TestsPanel.tsx:65-88 | exact implies trim implies tokens implies ignore-ws, for all texts |
| Compare.ChainIsStrict | web/app/src/playground/TestsPanel.tsx:65-88 | no link can be reversed, for any two non-space characters |
| Sse.FramesOfMore | web/app/src/shared/api.ts:350-358 | more text only appends frames, wherever the text was cut |
| Sse.FramesSpell | web/app/src/shared/api.ts:356-358 | frames and rest spell the text, and no frame holds a separator |
| Sse.FramesAreUnique | web/app/src/shared/api.ts:356-358 | that cut is the only one |
| Sse.SplitLF | web/app/src/shared/api.ts:360-360 | the pieces hold no LF and join back to the frame |
| Sse.ReadFrame | web/app/src/shared/api.ts:359-363 | the line loop computes what the lemmas below are about: the last event name and the accumulated data |
| Sse.WrittenFramesAreRead | web/app/src/shared/api.ts:350-369 | of a stream written from lists of fields (names, values, other lines, in any order, with any padding) each frame delivers its last name, or message, and its values joined without leading empty ones, unless both are empty |
| Sse.DrainBuffer | web/app/src/shared/api.ts:356-368 | the inner loop delivers the complete frames and keeps the rest |
| Sse.Stream | web/app/src/shared/api.ts:350-369 | however the text is cut, the events are those of the whole text, the buffer never holds a complete frame, and whatever frames the text was written from, the events are what those frames say |
| Sse.AccumulatedIsJoin | web/app/src/shared/api.ts:359-363 | the data is the LF join of the values without leading empty ones |
| Sse.DataIsJoinExactly | web/app/src/shared/api.ts:359-363 | it is the plain LF join if and only if no empty value leads another |

## Left out

- The runner, barrier, handshake, ownership, executor, completion and result-cache protocols are transition systems over values; update in place and aliasing inside one step are not captured there.
- Assumptions: single SQL statements are atomic, tokens of requests are unique, NOTIFY reaches every listener subscribed at commit, the digest is injective, and an archive decodes to the entries it was encoded from.
- The in-row limits are modelled in `ResultCache` only; `Table` rows carry the wall limit alone, and its payloads are strings.
- Times are integers in milliseconds or microseconds on one clock, which the database, the API and the workers share, and the doubles in a key are their bit patterns; rounding is a function parameter (`narrow`).
- Namespaces, mounts, seccomp, landlock, user namespaces and capabilities: foreign system calls; only the order of pipe handshakes and cgroup writes is kept.
- Tar, BLAKE3, moka, sqlx and tokio internals, including how the archive library treats symlinks below the top level; such boxes are outside `ValidTree`.
- A write that commits and still reports an error to the worker, which then writes a failure over it: a write in `Worker` succeeds or does not.
- The death of the worker process itself during a handshake or a run, and a child killed from outside before it is registered.
- Setup faults inside the child between the handshake and the compiler, which exit 127 and look like a program exit.
- Panics, poisoned locks, file descriptors inherited across concurrent forks, TTL and capacity eviction timing (any entry may be evicted at any time).
- `NaiveSandbox`, `WasmSandbox`, HTTP routing, idempotency lookup, load shedding, callbacks, webhooks, metrics, batches: plumbing or one-branch facts.
- `ResultCache::invalidate`, which nothing calls.
- JSON parsing of event data, UTF-8 decoding of chunks, and the error path of the stream reader.
- JSON export, user interface, persistence of test cases, language registry and benchmarks: only easy members.
