# A verified model of the pq protocol

pq keeps its job queue in two Postgres tables, and any number of clients, workers and
stale-task reapers act on them at once. This project models the transactions on those
tables, the worker process around them and the interleavings between all of them, and
proves what the queue promises: no version of a task is lost or run twice, runs of one row
do not overlap, batches do not deadlock, a worker that stops leaves nothing behind.

`dafny verify dfyconfig.toml` checks everything.

## How the model is built

* **Rows** (`Tasks.dfy`, `TaskTable.dfy`). A row is a value; each statement is a function on
  rows or on the table, following the source branch by branch. `Tasks.Task` is the ORM
  object whose fields `apply_requeue` assigns. Times are integer microseconds.
* **Client** (`Client.dfy`). `PQ` holds the stored rows; its methods update them in place and
  are proved against the functions above. Each keeps `TableInv`: ids in range, unique
  `client_id`s, and the shape of every row (`requeue` only while RUNNING; PENDING with 0
  attempts and no timestamps or error; RUNNING with `started_at` and 1 attempt; finished rows
  with `completed_at`; no error on COMPLETED rows).
* **Protocol** (`Protocol.dfy`, `ProtocolInvariant.dfy`, `Guarantees.dfy`,
  `Fidelity.dfy`, `ExactlyOnce.dfy`). A state holds the table, the clock and the runs
  (claims), each with its child process and what its worker did about its end. Steps:
  enqueue, upsert, claim, fork, failed fork, child exit, finish, worker crash or failed
  write, reap, cancel, clear, clock tick, in any order. A `version` label on each written
  spec, a log of what was written to which row, and the list of recorded ends are history
  that no operation reads.
* **Timing** (`Overlap.dfy`, `OverlapExact.dfy`). When two children of one row can be alive.
* **Row locks** (`RowLocks.dfy`, `RowLocksRefine.dfy`, `RowLocksComplete.dfy`). The finer
  model, with open transactions and locks, refines the atomic one and takes none of
  its steps away.
* **Batches** (`ClientOrder.dfy`, `Batch.dfy`, `LockOrder.dfy`), **claim order**
  (`ClaimOrder.dfy`), **periodic schedules** (`PeriodicTasks.dfy`), **graceful shutdown**
  (`Drain.dfy`) and **the worker loops** (`WorkerBooks.dfy`, `ConcurrentWorker.dfy`). A
  worker's `works(n)` says whether the n-th thing it asks of the database or the operating
  system succeeds, and `looks` records what its queries saw.

Assumptions: there is one clock (the code mixes the worker's clock with the database's
`now()`); a failed transaction changes nothing; row ids are never reused; `SIGALRM` ends a
child; budgets and worker defaults are finite and small enough for `signal.alarm` (a worker
default of 0 or less is modelled: `alarm(0)` cancels the alarm, and a negative argument,
which C reads as decades, counts as no alarm); claim priorities are a filter that only
narrows what a claim may pick, so the protocol lets a claim take any due PENDING row.

## What the code does where its documentation says something else

* `docs/architecture.md` says each task runs exactly once. Never more than once always
  holds. Exactly once holds for a version if and only if no step of `ExactlyOnce.Loses`
  befalls it: its handler does not resolve or its fork fails, its worker dies between claim
  and fork, or, before its claim, another upsert of its client replaces it or its row is
  cancelled or cleared. `ExactlyOnce.NeverRan` is a short execution that loses one: claim,
  crash, reap.
* The README asks for a `stale_task_timeout` longer than the longest run. The exact
  condition is `Overlap.SafeTiming`: with `d` the longest time from a claim to its child's
  alarm, the timeout must be at least `d + ceil(d) + 1 s` (for budgets set on tasks) and at
  least `d` plus the alarm of the largest worker default; and every worker default must be
  above -1 s, because `run_worker` does not validate it and from -1 s down no alarm is set.
  The shipped defaults satisfy it exactly up to `d` = 1799 s.
* A comment at `src/pq/worker.py:1063-1067` wants the lock of a periodic claim to outlast a
  run that keeps to its budget. Runs are kept apart exactly when each clears its lock
  strictly before it expires, and the budget does not ensure that: the lock ends with it,
  before the alarm, for every positive budget. The alarm does so only for a worker default
  in (-1 s, 0], for which the lock lasts an hour (`PeriodicTasks.AlarmKeepsApartIff`).
* An exception from the periodic cleanup leaves the concurrent loop without the drain;
  `ConcurrentWorker.Host.RunConcurrent` says what is then left.

## Model

| member | source | states |
|---|---|---|
| Tasks.UpsertParksOrReplaces | src/pq/client.py:198-215 | the per-column CASE expressions leave a RUNNING row as it is but for the parked version, and turn any other row into a freshly inserted one under its old identity |
| Tasks.ParkingIsDeferring | src/pq/models.py:99-112 | for any non-empty sequence of upserts during a run, ending the run (by worker or reaper) gives, in every column, the row that ending it first and then applying only the last upsert gives |
| Tasks.ShapeKept | src/pq/models.py:46-91 | upsert, claim and both ends of a run keep the shape of the row |
| Tasks.Task.ApplyRequeue | src/pq/models.py:93-112 | assigning the fields in place yields the row an insert of the parked version would have made; without one it reports the error and changes nothing |
| TaskTable.UpsertKeepsTable | src/pq/client.py:187-217 | an upsert touches only the row it reports, inserts only under a fresh id, keeps client ids unique and every row well shaped |
| TaskTable.InsertKeepsTable | src/pq/client.py:360-372 | an enqueue that does not raise keeps the table well formed, in particular client ids unique |
| TaskTable.ClaimKeepsTable | src/pq/worker.py:906-911 | a claim keeps the table well formed, so the attempts it leaves are 1 |
| TaskTable.FinishKeepsTable | src/pq/worker.py:833-859 | recording a result keeps the table well formed |
| TaskTable.ReapKeepsTable | src/pq/client.py:822-873 | so does the reaper |
| TaskTable.DeletesKeepTable | src/pq/client.py:724-754 | so do cancel and clear, and clear removes no PENDING or RUNNING row |
| TaskTable.TwoPasses | src/pq/client.py:823-872 | failing the stale rows with nothing parked and then re-queueing the stale rows left is the reaper as one update of all stale rows, and the two counts add up to their number |
| TaskTable.ReapColumns | src/pq/client.py:822-872 | column by column: a row within the threshold or within twice its budget stays; a stale one becomes a fresh row with the parked version, or else FAILED now, with an error and every other column kept |
| TaskTable.ClearInColumns | src/pq/client.py:733-754 | a bulk delete removes the rows of the status that ended before the cutoff, changes no other, and the sizes add up |
| Batch.OneUpsert | src/pq/client.py:198-216 | an upsert changes what its own client sees and nobody else, keeps every client's id and reports the id of the client's row |
| Batch.OrderWins | src/pq/client.py:436-440 | after a batch each client's row is its old row with the last of its items applied once; clients not named, rows without client id and existing ids are untouched |
| Batch.SortedEqualsInputOrder | src/pq/client.py:455-461 | writing in client id order leaves every client the row that writing in input order leaves; only ids of new rows may differ |
| ClientOrder.LeqIsLexicographic | src/pq/client.py:456 | the order is the ascending lexicographic order by code point |
| Client.PQ.Enqueue | src/pq/client.py:353-372 | ValueError exactly for a budget that is not positive, else IntegrityError exactly for a taken client id, changing nothing; otherwise a fresh PENDING row under a new id, all columns stated |
| Client.PQ.Upsert | src/pq/client.py:417-431 | an invalid budget raises and changes nothing; otherwise the client's row, and no other, is inserted, replaced or parked on, all columns stated |
| Client.PQ.ExecuteUpsert | src/pq/client.py:187-217 | the statement on a session's view of the table |
| Client.PQ.UpsertMany | src/pq/client.py:455-461 | succeeds exactly when every item is valid and the database does not fail; then item i's id is that of its client's row and the last version of each client wins; otherwise nothing is written |
| Client.PQ.ExecuteAll | src/pq/client.py:458-460 | the loop over the sorted statements applies them in that order and fills in the ids in input order |
| Client.PQ.Cancel | src/pq/client.py:596-599 | deletes just the row named, whatever its status, keeps all others and says whether it existed |
| Client.PQ.Clear | src/pq/client.py:733-754 | deletes exactly the finished rows of the status that ended before the cutoff, counts them and keeps all others |
| Client.PQ.Claim | src/pq/worker.py:887-924 | finds nothing exactly when every unlocked row is not PENDING, not due or not wanted; otherwise takes an unlocked, due, wanted PENDING row with no such row of higher priority, or of the same and an earlier run_at; only status, started_at and attempts of that row change |
| Client.PQ.FinishOneOff | src/pq/worker.py:831-861 | changes nothing unless id, RUNNING and token match; then writes only status, completed_at and a given error, or makes the row a fresh one with the parked version |
| Client.PQ.ReapStaleTasks | src/pq/client.py:822-873 | both passes together end every stale row and no other, each with the columns of `ReapColumns`, and the count is the number of stale rows |
| Client.PQ.RequeueRows | src/pq/client.py:865-872 | the loop re-queues exactly the rows selected |
| ClaimOrder.BestExists | src/pq/worker.py:889-904 | the ordered query has an answer exactly when some row is a candidate |
| ClaimOrder.NothingToClaim | src/pq/worker.py:889-897 | in terms of columns, the query is empty exactly when no unlocked row is PENDING, due and wanted |
| ClaimOrder.BestInColumns | src/pq/worker.py:889-904 | in terms of columns, which rows the query may return: the order is priority first, then run_at |
| ClaimOrder.TurnTakesOne | src/pq/worker.py:906-981 | one turn of a lone worker takes exactly one row from the PENDING ones it wants and touches no other |
| ClaimOrder.DrainsInOrder | src/pq/worker.py:889-911 | a lone worker facing only due rows claims each exactly once, by non-increasing priority and then non-decreasing run_at; the PENDING count drops by one per turn, and the query finds nothing more exactly when all were claimed |
| ProtocolInvariant.StepKeeps | src/pq/worker.py:832-859 | every step of every actor keeps the invariant the guarantees rest on |
| ProtocolInvariant.ReachableKeeps | src/pq/worker.py:832-859 | so it holds in every reachable state |
| ProtocolInvariant.TokenIdentifiesRun | src/pq/worker.py:833-841 | for a run that may still report, the guard on id, RUNNING and started_at matches exactly when the row is RUNNING that very run |
| ProtocolInvariant.EndRecordsOnce | src/pq/worker.py:842-859 | a RUNNING row's version was claimed and has no recorded end yet |
| Guarantees.AtMostOncePerVersion | src/pq/worker.py:886-924 | no two claims run the same version, and versions claimed on one row strictly increase, over any interleaving |
| Guarantees.NoVersionLost | src/pq/client.py:152-215 | the last version written to an existing row is its parked version if any, else its own, and it is waiting or was started |
| Guarantees.LateFinisherIsHarmless | src/pq/worker.py:832-859 | a run whose row moved on changes nothing; one whose row did not closes it with its own outcome, or re-queues it if and only if a version is parked, and touches no other row |
| Guarantees.OffForGood | src/pq/worker.py:814-819 | in any execution, a run that is not (or no longer) the one on its row never becomes it again |
| Guarantees.ReapIsFinal | src/pq/worker.py:814-819 | a run that the reaper took off its row changes no row and no verdict when it ends, however much later and whatever happened in between |
| Guarantees.AtMostOneVerdict | src/pq/worker.py:814-824 | the end of a version's run is recorded at most once, and only if it was claimed |
| Guarantees.CompletedMeansSuccess | src/pq/worker.py:472-475 | a COMPLETED row tells of a child that exited with 0 |
| Guarantees.NoOrphanedRow | src/pq/worker.py:1219-1222 | once the write about a claim has committed, no row is RUNNING with it |
| Guarantees.ReaperTakesStaleRows | src/pq/client.py:822-872 | corollary of TwoPasses for one row: stale leaves as PENDING with the parked version if there is one, else as FAILED; not stale stays as it is |
| Guarantees.BatchIsUpsertSteps | src/pq/client.py:458-460 | a committed batch is a sequence of consecutive upsert steps, so the guarantees cover it |
| Guarantees.WritesAreNotBlocked | src/pq/client.py:353-372 | nothing but validation and the unique client id holds a write back, whatever the workers are doing |
| Guarantees.DeletesAreNotBlocked | src/pq/client.py:733-754 | a cancel or clear is possible in every state and removes exactly the rows it names |
| Fidelity.RunsWhatWasWritten | src/pq/worker.py:886-924 | in any execution, a run of a version gets the name, payload, priority and budget passed to the call that wrote it, and not before its run_at, however it was parked, re-queued or reaped on the way |
| Fidelity.ClaimTakes | src/pq/worker.py:906-924 | a claim takes a due PENDING row, changes three of its columns and hands the rest, with the right budget, to the run |
| ExactlyOnce.StepMisses | src/pq/worker.py:1207-1222 | a version goes missing (not waiting, no child, none to come) at exactly the steps of `Loses`, and stays missing |
| ExactlyOnce.ExactlyOnceIff | src/pq/worker.py:886-981 | over any execution, a version no longer waiting for its claim or fork has had exactly one child if and only if no such step befell it, else none; never two |
| ExactlyOnce.AllExactlyOnceIff | docs/architecture.md:181 | every version runs exactly once, in its time, if and only if the execution has no such step for any version |
| ExactlyOnce.NeverRan | docs/architecture.md:181 | the promise fails: claim, crash before the fork, reap leaves a FAILED row whose version never had a child |
| Overlap.LiveIsNotStale | src/pq/client.py:793-805 | with covered timing no row is stale for any reaper while its run may be alive |
| Overlap.CoveredInClosedForm | src/pq/worker.py:305 | every budget is covered exactly when the closed-form condition on delay, threshold and the range of worker defaults holds |
| Tasks.AlarmFires | src/pq/client.py:30-33 | an alarm is set exactly for budgets above -1 s, then at least a second later, after the budget if that is positive, and not earlier for a larger budget |
| Overlap.ShippedDefaults | src/pq/worker.py:80-90 | with 30 minutes per run and reaping after 1 hour, exactly delays up to 1799 s are covered |
| Overlap.NoOverlap | src/pq/client.py:389-397 | with covered timing no reachable state has two live children of one row |
| OverlapExact.NoOverlapPerClient | src/pq/client.py:392-394 | nor two of one client id, if no RUNNING row was cancelled or cleared |
| OverlapExact.SecondFork | src/pq/worker.py:673-674 | with a budget that is not covered there is an execution in which two children of one row are alive |
| OverlapExact.NoOverlapIffSafeTiming | src/pq/client.py:776-781 | runs of one row never overlap, in any execution, exactly when the timing condition holds, for any range of worker defaults, also those without an alarm |
| RowLocksRefine.FinishCommitRefines | src/pq/worker.py:826-859 | the write of a finish, computed from an earlier locking read, is the atomic finish at its commit |
| RowLocksRefine.ReapWritesAreReap | src/pq/client.py:850-872 | what the two statements collected row by row is every row stale at the cutoff, parked or not, so their writes are the atomic reaper |
| RowLocksRefine.ReapCommitRefines | src/pq/client.py:822-873 | the reaper's commit is the atomic reaper with the cutoff of its start, whatever upserts, finishes, cancels and other reapers did in between |
| RowLocksRefine.StepRefines | src/pq/worker.py:826-829 | every step of the model with locks is an atomic step or invisible |
| RowLocksRefine.FineStepKeeps | src/pq/worker.py:826-829 | every step keeps what open transactions rely on: reads under lock stay valid, locks are disjoint, no stale row is forgotten |
| RowLocksRefine.UpsertWaitsForFinish | src/pq/worker.py:826-829 | an upsert cannot run between a finish's read and its commit, and after the commit the row is not RUNNING and carries the newest version |
| RowLocksRefine.RowLocksRefineAtomic | src/pq/worker.py:826-829 | every state of every execution with locks is reachable in the atomic protocol |
| RowLocksRefine.NoUpdateLost | src/pq/client.py:850-853 | so with locks, too, no version is lost or claimed twice, and safe timing excludes overlap |
| RowLocksComplete.AtomicStepsAreFine | src/pq/client.py:822-873 | the converse: with no transaction open, every atomic step (a reaper's starting now) can be taken lock by lock, so the locks take no behaviour away |
| LockOrder.StepKeepsInv | src/pq/client.py:442-445 | no key is ever held by two transactions |
| LockOrder.LocksAreKept | src/pq/client.py:444-447 | locks are taken only from nobody, kept until the commit, and released by it; a transaction with all its keys holds all of them |
| LockOrder.ClaimsNeverWait | src/pq/worker.py:896-900 | a claim takes a free row and goes without a locked one, without waiting |
| LockOrder.SomeoneCanStep | src/pq/client.py:442-444 | while some transaction has not committed, some transaction can step |
| LockOrder.NoDeadlock | src/pq/client.py:442-446 | no schedule of batches, one-row transactions and skipping claims is stuck before all have committed, and each step uses up a bounded number |
| LockOrder.BatchIsSorted | src/pq/client.py:456-460 | a batch locks each of its clients, in the order of its statements, which is client id order |
| LockOrder.StartIsFine | src/pq/client.py:458-460 | any set of batches and one-row transactions starts in the invariant |
| LockOrder.InputOrderCanDeadlock | src/pq/client.py:442-444 | without the sort, two batches that name two clients in opposite orders come from their start, by one lock each, to a state in which neither can step |
| PeriodicTasks.Periodic.Claim | src/pq/worker.py:1032-1086 | claims exactly when active, due and not locked (or not limited), and then sets the lock by the effective budget, the last run and the next run, all columns stated |
| PeriodicTasks.Periodic.Reschedule | src/pq/client.py:569-581 | schedule() on an existing row keeps its lock and last run and sets the next run to now or the next tick |
| PeriodicTasks.LockKeepsRunsApart | src/pq/worker.py:1032-1079 | if locks are cleared strictly before they expire, at most one run is in flight over any claims, clears and schedule() calls, and the lock it clears is its own |
| PeriodicTasks.EndReleases | src/pq/worker.py:1133-1142 | the end of a run releases exactly its own lock, and the schedule can be claimed as soon as it is due; a lost worker's lock holds until it expires |
| PeriodicTasks.NoOverlapIffClearedInTime | src/pq/worker.py:1075-1079 | overlap control works in every execution exactly when runs end strictly before their lock expires |
| PeriodicTasks.ExpiredLockOverlaps | src/pq/worker.py:1056-1079 | for any schedule and worker default, if runs may last until their lock has expired, an execution of that very schedule has two runs in flight |
| PeriodicTasks.AlarmKeepsApartIff | src/pq/worker.py:305 | the alarm alone keeps the runs of a schedule apart exactly if the effective budget lies in (-1 s, 0] and the delay to the alarm is under 3599 s |
| PeriodicTasks.OnePerTick | src/pq/worker.py:1081-1086 | without re-scheduling, every claim moves the next run past its own time, to the next tick or by the interval, and no claim comes before the time the one before it has set |
| PeriodicTasks.RateBound | src/pq/worker.py:1081-1086 | without re-scheduling, n claims of an interval schedule in a window of length L satisfy (n - 1) * run_every <= L |
| Drain.Decode | src/pq/worker.py:448-488 | status and kind for every wait status: COMPLETED exactly for exit 0, a shutdown verdict exactly for SIGKILL after a kill by the drain |
| Drain.ShutdownState.HandleSignal | src/pq/worker.py:213-227 | only the first signal sets the deadline; a repeated one changes nothing |
| Drain.Process.Kill | src/pq/worker.py:258-272 | a killed child is gone within the kill latency; one that already exited keeps its status |
| Drain.PollTimeout | src/pq/worker.py:420-423 | between 10 ms and 1 s, and never past the deadline but for the 10 ms grain |
| Drain.Waiter.WaitForChild | src/pq/worker.py:410-488 | a child is left alone without a shutdown and until the deadline: one that exits by then does so at its own time and in its own way, and only a killed one gets the shutdown verdict. The wait ends after the child exited; if a shutdown was requested before, by the deadline plus one child's grain and kill latency; if the signal arrives during the wait, even inside its select, only the rest of a one-second round that the drain timeout does not cover comes on top; the first signal sets the deadline and it stays |
| Drain.Waiter.DrainAll | src/pq/worker.py:1521-1529 | draining n children ends by max(now, deadline) plus n times one child's grain and kill latency, never n drain timeouts; no child that exits by the deadline is killed, however late its wait begins |
| WorkerBooks.LocksEnd | src/pq/worker.py:1411-1421 | when a job ends, each lock of this worker still belongs to one of its slots, or its clear failed |
| WorkerBooks.BooksAdd | src/pq/worker.py:1491-1494 | a new child's pid and descriptor are in neither dictionary, even if used before, and adding them keeps the dictionaries exact |
| WorkerBooks.BooksRemove | src/pq/worker.py:1500-1503 | popping a slot and reaping it keeps them exact |
| ConcurrentWorker.Host.ForkChild | src/pq/worker.py:368-388 | a fork adds one child, with unused pid and descriptor, below the limit |
| ConcurrentWorker.Host.WaitAndClose | src/pq/worker.py:413-444 | waits for and closes the pipe of exactly the slot's child |
| ConcurrentWorker.Host.ClaimOneOff | src/pq/worker.py:1165-1205 | claims nothing exactly when its transaction fails or no unlocked row is PENDING, due and wanted; otherwise adds one run of this worker, on a best row, with its columns and budget, whatever others do meanwhile |
| ConcurrentWorker.Host.FinishOneOff | src/pq/worker.py:1219-1222 | is the finish step of exactly that run if its transaction succeeds, else its result is lost |
| ConcurrentWorker.Host.ClaimPeriodic | src/pq/worker.py:1247-1301 | claims nothing exactly when its transaction fails or no unlocked schedule is due and wanted; otherwise writes a claim of one such schedule and gains no lock but that one, if it is limited |
| ConcurrentWorker.Host.ClearLock | src/pq/worker.py:1411-1421 | clears the lock of exactly that schedule, if its claim was limited and the write succeeds |
| ConcurrentWorker.Host.StartRun | src/pq/worker.py:1207-1232 | a child runs the claim exactly if starting it succeeds; otherwise the claim is closed, or its result lost if that write fails too |
| ConcurrentWorker.Host.TryPeriodic | src/pq/worker.py:1235-1340 | either a child runs the schedule and its slot accounts for the lock, or no lock is left |
| ConcurrentWorker.Host.TryClaimAndFork | src/pq/worker.py:1343-1372 | a one-off task is looked for first; a slot comes with its open claim or the lock of its schedule; without a slot both tables were tried in vain, no claim is left open and no lock gained |
| ConcurrentWorker.Host.ReapAndUpdate | src/pq/worker.py:1375-1442 | waits once, closes once, and reports the run after its child exited, or clears the lock of its schedule; failing only with its write |
| ConcurrentWorker.Host.FillSlots | src/pq/worker.py:1482-1494 | ends only on a shutdown, with `concurrency` children, or when the last try went through both tables in vain; it keeps the dictionaries exact, every open claim and lock in a slot, and drops no slot |
| ConcurrentWorker.Host.ReapReady | src/pq/worker.py:1496-1503 | reaps exactly the children whose pipes are readable and keeps the books exact |
| ConcurrentWorker.Host.Round | src/pq/worker.py:1480-1514 | one round fills the slots, reaps all that is readable and nothing else, and does the maintenance unless a shutdown was requested |
| ConcurrentWorker.Host.RunWorkerOnce | src/pq/worker.py:781-801 | looks for a one-off task, and only if none was claimed for a schedule; says whether something was claimed; leaves no child, no open claim and no lock |
| ConcurrentWorker.Host.RunSequential | src/pq/worker.py:726-749 | goes on until a shutdown or an exception from the cleanup; however it ends, every child was waited for and its pipe closed once, every claim was reported, no row is RUNNING and no schedule locked by one, but for those whose write failed |
| ConcurrentWorker.Host.RunConcurrent | src/pq/worker.py:1475-1530 | the same for the concurrent loop, round after round, with at most concurrency children at any time, although pids and descriptors are reused and others act in between; if cleanup raises, exactly the children in the dictionary are left, none of them waited for or closed |

## Left out

- ConcurrentWorker.Host.RunConcurrent: `KeyboardInterrupt` is not modelled; Python raises it in the main thread only, where the loops run with handlers that replace it.
- ConcurrentWorker.Host.StartRun: when `os.fork()` itself fails, both ends of the new pipe stay open in the source; the model counts the pipes of children only.
- ConcurrentWorker.Host.ClaimPeriodic: takes any due schedule; what others do to schedules in between is any change that does not give this worker a lock.
- Drain.Waiter.WaitForChild: the bytes read from the error pipe, and a grandchild that keeps the pipe open after the child has exited, are not modelled; one round takes at most a given overrun beyond its timeout.
- RowLocks: a batch is a series of one-step upserts; that it keeps its locks until it commits is modelled in LockOrder only. A claim locks, writes and commits in one step.
- LockOrder: the reaper and bulk deletes lock in no fixed order and are outside the deadlock claim; the database aborts one of two that block each other (`Abort` in RowLocks).
- Client.PQ.Enqueue: the default `run_at` (now) and the registry lookup and serialization that may raise before it are the caller's; so for the other writes.
- PeriodicTasks: inserting and removing schedules, validation in `schedule()`, cron expressions (their ticks are inputs after now) and the choice among due rows by priority.
- Tasks.ValidBudget: a NaN or infinite per-task budget, which validation rejects like a non-positive one; a NaN or infinite worker default, which nothing rejects, is outside the model, like budgets over 2^31 - 2 seconds, for which `signal.alarm` raises.
- Serialization, the function registry, hooks, asyncio, error message texts, memory figures, logging.
- Connection pools, fork hooks, TLS, migrations: behaviour of other libraries.
- Read-only queries (counts, lists, lookups): they change nothing.
