# NexusTask verification model

A Dafny model of the scheduling core of NexusTask, a header-only C++20 task engine, with proofs of
what that core promises. Mutable C++ objects are Dafny classes whose methods are proved against
functions on values; concurrent code is a step relation in which each atomic load, store and
compare-and-swap, or each critical section, is one step, and the properties are stated for every
interleaving of any length. A hash map is walked in an arbitrary order, chosen afresh each time.

`dafny verify dfyconfig.toml` checks everything.

## What the files model

| File | Subject |
|---|---|
| `Tasks.dfy` | `Task`: status, edges, flags, attempts |
| `GraphModel.dfy`, `Cycles.dfy`, `DependencyGraph.dfy` | the dependency graph: representation invariant, removal, cycles, `topological_order` |
| `Lifecycle.dfy`, `LifecycleRuns.dfy`, `LifecycleSafety.dfy`, `LifecycleMetrics.dfy` | the executor as a step relation: invariant, termination, safety over whole runs, metrics |
| `LifecycleAnswers.dfy` | when the answer that lets `wait_for_completion` return is final |
| `LifecycleLog.dfy` | the executor's graph read off its submissions |
| `LifecyclePool.dfy`, `LifecycleJam.dfy`, `LifecycleCrowd.dfy`, `LifecycleJamming.dfy` | the same relation over bounded queues and threads that wait for room: when the workers jam, how many tasks it takes, and a run with that many |
| `TaskExecutor.dfy` | the executor object, each method of which takes steps of that relation |
| `BitMask.dfy`, `TaskQueue.dfy`, `QueueSpsc.dfy`, `QueueMpmc.dfy`, `QueueStranding.dfy`, `QueueThreads.dfy` | the ring buffer: alone, with one producer and one consumer, with any number of threads; which states are stuck and which threads reach them |
| `PriorityLevels.dfy`, `PoolModel.dfy`, `ThreadPool.dfy` | the four-level priority queue set and the work-stealing pool |
| `PerformanceMonitor.dfy` | counters, and the compare-and-swap loops for extrema |
| `RateLimiter.dfy` | token buckets |
| `NodeSelection.dfy` | node table and node selection of the distributed executor |
| `TaskScheduler.dfy`, `DispatchDelay.dfy` | delayed and periodic scheduling, cancellation; how long a due task can wait |
| `TaskCache.dfy` | the result cache with expiry |
| `Sequences.dfy`, `Arithmetic.dfy`, `Options.dfy` | shared facts |

## Assumptions

* Steps are sequentially consistent. A method that holds a mutex throughout is one step.
* In the executor's step relation `submit_internal` is one step, and so are the scheduler's test and
  mark of one task, the end of an attempt (`execute` returning), and the hook that settles it. Between
  the last two other steps may happen, which matters below. In `Lifecycle.dfy` and the files that build
  on it alone the pool always has room; `LifecyclePool.dfy` and after drop that assumption and show
  that every run with bounded queues is a run of that relation.
* In `LifecyclePool.dfy` one queue operation, one worker's search and one attempt of `submit` are one
  step each, and a `compare_exchange_weak` does not fail spuriously. The queues of a pool have several
  producers and consumers, so this is more than the code guarantees; what their steps
  really do is the item on two producers and two consumers below.
* The result of an attempt is an arbitrary success or failure; this covers exceptions, timeouts and
  deadlines. User callbacks do not throw. There are no `cancel` and no `submit_async` calls.
* Clock readings do not decrease. They are parameters.
* The scheduler's loop sleeps until the time it read from the top of the heap, and may at any moment
  while asleep read the time that is at the top by then. `wait_until` has only a reference into the heap's
  storage; what it reads after that storage has been replaced is not part of this model.
* `strongCas` says that `compare_exchange_weak` does not fail spuriously. Without it the queue
  methods may also refuse when they need not, and their contracts allow for that; with it they
  are exact.

## What the code does not do

These are places where a natural expectation of the code is false. Each is proved, with the exact
condition where there is one.

* **A dependency that has already finished blocks its dependent for good.** `add_dependency` counts it,
  and its completion is never delivered again; the same holds for a task that names its own id. A run
  that has come to rest has finished every task if and only if no submission named a finished task or
  its own future id (`LifecycleSafety.RunAtRestCompletesIff`); `LifecycleSafety.LateDependencyBlocks` and
  `LifecycleSafety.SelfDependencyBlocks` are runs of either kind.
* **Full queues can jam the workers for good.** `handle_failure` runs on a worker and calls `submit`,
  which waits for room that only workers make. The workers can go no further although work is left if
  and only if each of them is there with a task whose global queue is full
  (`LifecycleJam.WorkersStuckIff`, `LifecycleJam.JamIsForGood`), and an executor that has stopped has
  completed everything if and only if it is not jammed and every task was submitted in time
  (`LifecycleJam.StoppedIsCompleteIff`, over whole runs `LifecycleJam.StoppedRunCompletesIff`). As long
  as there are fewer than 511 + 2047 + 1 unfinished tasks of each priority no thread ever waits, so
  nothing jams (`LifecycleCrowd.UncrowdedNeverJams`). That is the least number that can jam one to four
  workers (`LifecycleJamming.FewWorkersMayJam`); to jam n workers it takes at least 511 + 2047 + n / 4,
  rounded up, of one priority (`LifecycleCrowd.JamTakesACrowd`).
* **`wait_for_completion` may return before a retry.** `execute` leaves the status `Failed` behind before
  `handle_failure` decides to try again, and `all_completed` counts it. The answer is final if and only
  if no such attempt is pending (`LifecycleAnswers.AnswerIsFinalIff`); it always is if no submission
  allows retries (`LifecycleAnswers.AnswersAreFinalWithoutRetries`), and only tasks without dependents
  can make it early (`LifecycleAnswers.EarlyAnswersComeFromSinks`).
* **With two producers, or with two consumers, the ring buffer can get stuck.** The slot claim and the
  store of the index are separate, so a late store can move `tail` back, or `head` past a task. A queue
  at rest never hands out a task again if and only if `head` and `tail` disagree with the slot at
  `head`, or there is only one slot (`QueueStranding.QuietStuckIff`). Threads can bring it there if and
  only if there are two producers and at least two slots, or two consumers and at least four
  (`QueueThreads.MayStickIff`). One producer with one consumer is enough for first-in first-out
  delivery (`QueueSpsc.SpscIsABoundedFifo`). Conservation of tasks and index bounds hold for any threads
  (`QueueMpmc.MpmcConservesTasks`).
* **A worker's own queue is first-in first-out**, although the comment in `worker_loop` calls it LIFO
  (`PoolModel.SearchOrder`, `PriorityLevels.DequeueTakesTheBest`).
* **A periodic task drifts.** It is due again one interval after it was popped, not after it was due, so
  all delays add up (`TimedScheduling.DriftIsTheDelays`); without delays it keeps to its plan
  (`TimedScheduling.PunctualPopsKeepThePlan`).
* **A capacity of zero is accepted** by the queue's constructor, whose comment asks for a power of two
  (`TaskQueues.AcceptsCapacityIff`), and **`slack()` counts the slot that is never used**: a full queue
  reports one.
* **`cancel(id)` that answers false is not final.** While the scheduler's loop has taken the task out of
  the heap, `cancel` does not find it, and the loop dispatches or re-queues it afterwards. A cancelled
  id is final if and only if the loop does not hold the task at that moment
  (`TimedScheduling.CancelIsFinalIff`).
* **A task scheduled while the scheduler sleeps may be overslept.** The wait's condition looks at `running_`
  only. The loop rests exactly when its heap is empty or the time it sleeps for has not come
  (`DispatchDelay.LoopRestsIff`); a task that was there when it fell asleep is never due then
  (`DispatchDelay.OnlyNewcomersAreOverslept`), but a later one can be (`DispatchDelay.NewcomerIsOverslept`).
  Once the loop takes its steps a due task is dispatched within three for each task due no later, there
  or scheduled meanwhile, plus seven (`DispatchDelay.DueTaskIsServed`).
* **Adding a task under an id in use breaks the graph** exactly when the old task had edges to other
  tasks (`GraphModel.AddTaskKeepsIff`, and over whole edit logs `GraphModel.BuiltWellFormedIff`;
  `GraphModel.ReuseBreaksTheGraph` is such a log). The executor hands out each id once
  (`LifecycleLog.RunBuildsItsLog`).

## Model

| member | source | states |
|---|---|---|
| Tasks.Task.constructor | include/task_engine/task.hpp:60-68 | a new task is pending, without edges, flags or attempts |
| Tasks.Task.BeginExecute | include/task_engine/task.hpp:80-89 | a cancelled task is refused; otherwise it runs, one more attempt is counted and its start is noted |
| Tasks.Task.EndExecute | include/task_engine/task.hpp:91-112 | completed exactly when the deadline was met, the function did not throw and no positive timeout in microseconds was passed; otherwise failed, and which of the three came first |
| Tasks.EndingMeans | include/task_engine/task.hpp:91-112 | a missed deadline outranks an exception and that a timeout; a timeout is passed if the attempt took more than 1000 nanoseconds for each of its microseconds |
| Tasks.TimeoutIff | include/task_engine/task.hpp:96-104 | which timeouts a given attempt passes: exactly the positive ones below its duration |
| Tasks.EndingIsMonotone | include/task_engine/task.hpp:91-112 | finishing later or being given less time never turns a timeout into a success, and only differences of readings matter |
| Tasks.Task.ExecutionTime | include/task_engine/task.hpp:188-194 | whole microseconds between the noted start and end, towards zero, and zero without an attempt |
| Tasks.Task.AddDependency | include/task_engine/task.hpp:118-122 | one entry at either end and one count, also when both ends are one task |
| Tasks.Task.NotifyDependencyCompleted | include/task_engine/task.hpp:127-132 | one count less, and ready exactly when that is zero |
| Tasks.Task.IsReady | include/task_engine/task.hpp:137-142 | the readiness test on the task's value |
| Tasks.Task.TryMarkEnqueued | include/task_engine/task.hpp:147-150 | succeeds exactly when the mark was not set; it is set afterwards |
| Tasks.Task.ClearEnqueuedFlag | include/task_engine/task.hpp:152-154 | only the mark changes |
| Tasks.Task.CanRetry | include/task_engine/task.hpp:162-175 | not cancelled, and no more attempts than retries allowed |
| Tasks.Task.ResetForRetry | include/task_engine/task.hpp:240-245 | pending, unmarked and unmeasured; attempts and edges kept |
| GraphModel.AddTaskKeeps | include/task_engine/dependency_graph.hpp:29-32 | a fresh id keeps live endpoints, the multiset mirror and the counters |
| GraphModel.AddTaskKeepsIff | include/task_engine/dependency_graph.hpp:29-32 | adding keeps the invariant if and only if the id is new or names a task without edges to others |
| GraphModel.AddDependencyKeeps | include/task_engine/dependency_graph.hpp:37-46 | one more edge recorded at both ends; unknown ids, duplicates and self-loops included |
| GraphModel.AddDependenciesAt | include/task_engine/task_executor.hpp:184-186 | a submission appends exactly the known ids of its list, in order, and counts each |
| GraphModel.RemoveTaskKeeps | include/task_engine/dependency_graph.hpp:111-134 | removal keeps the invariant, the counters, every edge between other tasks, and their status, flags and attempts |
| GraphModel.RemoveUndoesSubmission | include/task_engine/dependency_graph.hpp:29-134 | removing the task last submitted restores the graph, whatever its dependency list named |
| GraphModel.NotifyCompletedKeeps | include/task_engine/dependency_graph.hpp:67-79 | delivering a completion keeps all edges mirrored |
| GraphModel.GraphIsItsLog | include/task_engine/dependency_graph.hpp:29-134 | a graph built by edits that reuse no live id of a task with edges to others is well formed, counts its entries, and holds exactly the edges read off the edit log |
| GraphModel.BuiltWellFormedIff | include/task_engine/dependency_graph.hpp:29-134 | every graph along an edit log is well formed if and only if the log reuses no such id |
| GraphModel.ReuseBreaksTheGraph | include/task_engine/dependency_graph.hpp:29-46 | a log that reuses the id of a task another one depends on, and the graph it builds is not well formed |
| Cycles.OrderExact | include/task_engine/dependency_graph.hpp:157-196 | an order that puts dependencies first and leaves out only waiting tasks leaves out exactly the tasks on or below a cycle, and is short exactly when there is a cycle |
| Cycles.OrdersAgree | include/task_engine/dependency_graph.hpp:157-190 | whatever sequence the maps are walked in, the same tasks are ordered |
| Cycles.OrderAvoidsCycles | include/task_engine/dependency_graph.hpp:157-190 | nothing that is ordered lies on or below a cycle |
| Cycles.BackwardWalk | include/task_engine/dependency_graph.hpp:192-196 | a task left out ends a walk of any length through tasks left out |
| DependencyGraphs.SortFrom | include/task_engine/dependency_graph.hpp:157-190 | the loop terminates with a duplicate-free, dependency-closed order of exactly the tasks no cycle leads to |
| DependencyGraphs.PlaceNext | include/task_engine/dependency_graph.hpp:173-187 | one round: in-degrees stay the numbers of unplaced dependency entries, and the queue the tasks at zero |
| DependencyGraphs.ReleaseDependents | include/task_engine/dependency_graph.hpp:178-186 | one decrement for each adjacency entry; a task is queued exactly once, when it reaches zero |
| DependencyGraphs.DependencyGraph.AddTask | include/task_engine/dependency_graph.hpp:29-32 | the task is filed under its id and the graph's value is extended |
| DependencyGraphs.DependencyGraph.AddDependency | include/task_engine/dependency_graph.hpp:37-46 | pointer updates amount to one edge of the value, nothing if an id is unknown |
| DependencyGraphs.DependencyGraph.GetReadyTasks | include/task_engine/dependency_graph.hpp:51-62 | exactly the ready tasks, each once, in any order |
| DependencyGraphs.DependencyGraph.NotifyTaskCompleted | include/task_engine/dependency_graph.hpp:67-79 | each dependent is notified once for each of its entries, and is ready if that brings its counter to zero |
| DependencyGraphs.DependencyGraph.AllCompleted | include/task_engine/dependency_graph.hpp:84-97 | true if and only if every status is terminal |
| DependencyGraphs.DependencyGraph.RemoveTask | include/task_engine/dependency_graph.hpp:111-134 | both detaching loops and the erasure remove the task and all its edges; the answer says whether it was there |
| DependencyGraphs.DependencyGraph.NotifyAll | include/task_engine/dependency_graph.hpp:67-79 | the loop over a dependents vector with duplicates: as many notifications as entries, ready where the counter comes to zero on the way |
| DependencyGraphs.DependencyGraph.DetachFromDependencies | include/task_engine/dependency_graph.hpp:119-124 | each dependency forgets the task, however often the edge was recorded, and no other task changes |
| DependencyGraphs.DependencyGraph.DetachFromDependents | include/task_engine/dependency_graph.hpp:126-130 | the same at dependents, with one count less for each entry although the first pass erases them all |
| DependencyGraphs.DependencyGraph.TopologicalOrder | include/task_engine/dependency_graph.hpp:157-190 | dependencies first, no duplicates, exactly the tasks neither on nor below a cycle |
| DependencyGraphs.DependencyGraph.HasCycles | include/task_engine/dependency_graph.hpp:192-196 | true if and only if there is a dependency cycle |
| Lifecycle.StepKeeps | include/task_engine/task_executor.hpp:156-236 | every step keeps the executor's invariant |
| LifecycleRuns.ProductiveStepsUseUpMeasure | include/task_engine/task_executor.hpp:195-283 | every enqueue, start, return and settling lowers the measure |
| LifecycleRuns.SubmissionGrantsMeasure | include/task_engine/task_executor.hpp:156-193 | a submission raises it by at most four for each attempt it allows |
| LifecycleRuns.RunsComeToRest | include/task_engine/task_executor.hpp:156-283 | no run takes more productive steps than its submissions grant |
| LifecycleRuns.RunKeeps | include/task_engine/task_executor.hpp:156-283 | between any two states of a run dependencies, budgets and everything about finished tasks are kept |
| LifecycleSafety.CounterNeverForgets | include/task_engine/task.hpp:118-132 | the counter is the entries not yet notified plus those notified before submission |
| LifecycleSafety.ReadyIff | include/task_engine/task.hpp:127-132 | in every run a waiting task is Ready if and only if it is untried, has dependencies, and its counter is zero, which is when all of them finished after it was submitted; otherwise it is Pending |
| LifecycleSafety.DependencySafety | include/task_engine/task_executor.hpp:156-236 | when an attempt starts each recorded dependency has finished, and stays finished with the same status |
| LifecycleSafety.TerminalEventsFollowTheGraph | include/task_engine/dependency_graph.hpp:67-79 | terminal events come once each and in an order that extends the graph |
| LifecycleSafety.CyclesNeverFinish | include/task_engine/task_executor.hpp:156-283 | a task on or below a cycle is never attempted |
| LifecycleSafety.OneCopyAtMost | include/task_engine/task_executor.hpp:188-236 | at most one copy of a task is queued, running or being settled, and none once it has finished |
| LifecycleSafety.AttemptsNeverOverlap | include/task_engine/task_executor.hpp:222-236 | between two starts of a task the first attempt is settled |
| LifecycleSafety.AttemptsBound | include/task_engine/task.hpp:162-175 | the starts of a task are its attempts, at most one more than its retries |
| LifecycleSafety.FailuresUseTheWholeBudget | include/task_engine/task_executor.hpp:222-236 | a finished task that never succeeded has used all its attempts |
| LifecycleSafety.AtRestIffOnlySubmissionsAreEnabled | include/task_engine/task_executor.hpp:273-283 | where the pool has room: at rest if and only if only a submission can happen |
| LifecycleSafety.AllCompletedIff | include/task_engine/dependency_graph.hpp:84-97 | what `all_completed` sees: finished tasks and those whose hook is still to come |
| LifecycleSafety.RestIsCompletionIff | include/task_engine/task_executor.hpp:120-124 | a state at rest is complete if and only if every task was submitted in time |
| LifecycleSafety.RunAtRestCompletesIff | include/task_engine/task_executor.hpp:120-283 | the same over runs: if and only if no submission named a finished task or its own future id |
| LifecycleSafety.LateDependencyBlocks | include/task_engine/task_executor.hpp:156-193 | a run that comes to rest with a task unfinished that named one already finished |
| LifecycleSafety.SelfDependencyBlocks | include/task_engine/task_executor.hpp:156-193 | a run that comes to rest with a task unfinished that named its own id |
| LifecycleSafety.WaitMayReturnBeforeARetry | include/task_engine/task_executor.hpp:120-236 | a run in which everything looks completed and a retry follows |
| LifecycleAnswers.AnswerIsFinalIff | include/task_engine/task_executor.hpp:120-236 | everything stays completed without further submissions if and only if no failed attempt is about to be retried |
| LifecycleAnswers.AnswersAreFinalWithoutRetries | include/task_engine/task_executor.hpp:120-236 | in a run whose submissions allow no retries every such answer is final |
| LifecycleAnswers.EarlyAnswersComeFromSinks | include/task_engine/task_executor.hpp:120-236 | only a task that nothing depends on can make an answer early |
| LifecycleLog.RunBuildsItsLog | include/task_engine/task_executor.hpp:156-193 | no run adds a task under an id in use, and the dependencies in the graph are those that the edits of its submissions build |
| LifecycleLog.RunGraphIsItsLog | include/task_engine/task_executor.hpp:156-236 | at any point of a run the graph has exactly the tasks submitted, each with the entries its list named among the tasks there at the time, itself included |
| LifecycleLog.RunBudget | include/task_engine/task_executor.hpp:156-161 | the id given is the number of the submission, and the task keeps the retry budget asked for |
| LifecycleLog.StartsAreAsAsked | include/task_engine/task_executor.hpp:222-236 | a task is started at most once more than its submission allowed retries, and exactly so often if it finished without a success |
| LifecyclePool.SearchIsAStart | include/task_engine/thread_pool.hpp:211-246 | what a worker's search finds is a task that may start, and it leaves exactly one queue |
| LifecyclePool.ActionsAreSteps | include/task_engine/task_executor.hpp:156-283 | every action of executor, pool and waiting threads is a step of the executor's relation or leaves its state alone |
| LifecyclePool.EnteringIsGlobal | include/task_engine/thread_pool.hpp:130-141 | a waiting thread puts its task at the end of the global queue of its priority and takes no turn |
| LifecyclePool.ActionKeeps | include/task_engine/thread_pool.hpp:124-240 | queued tasks are those in the queues and those some thread waits with; each worker has at most one task in hand |
| LifecycleJam.ActionsAreRuns | include/task_engine/task_executor.hpp:156-283 | every run with bounded queues is a run of the executor's relation |
| LifecycleJam.WorkersStuckIff | include/task_engine/thread_pool.hpp:124-143 | no worker can do anything if and only if all wait for room in full global queues, or there is nothing to do |
| LifecycleJam.JamIsForGood | include/task_engine/thread_pool.hpp:124-143 | after a jam no task ever finishes, whatever else happens |
| LifecycleJam.StoppedIff | include/task_engine/task_executor.hpp:222-283 | an executor that is not jammed has stopped if and only if it is at rest |
| LifecycleJam.StoppedIsCompleteIff | include/task_engine/task_executor.hpp:120-283 | an executor that has stopped has completed everything if and only if it is not jammed and every task was submitted in time |
| LifecycleJam.StoppedRunCompletesIff | include/task_engine/task_executor.hpp:120-283 | over runs with bounded queues: complete if and only if not jammed and no submission named a finished task or its own future id |
| LifecycleJam.PoolComesToRest | include/task_engine/task_executor.hpp:156-283 | with bounded queues and waiting threads too, a run does no more than its submissions allow for |
| LifecycleCrowd.NoRoomMeansMany | include/task_engine/thread_pool.hpp:124-159 | where there is no room for a priority 511 + 2047 of its tasks are in the queues, besides any that wait |
| LifecycleCrowd.UncrowdedNeverJams | include/task_engine/thread_pool.hpp:124-143 | below that number no thread ever waits inside `submit` |
| LifecycleCrowd.JamTakesACrowd | include/task_engine/thread_pool.hpp:124-143 | n workers do not jam while there are always fewer than 511 + 2047 + m unfinished tasks of each priority and n > 4 (m - 1) |
| LifecycleJamming.FewWorkersMayJam | include/task_engine/thread_pool.hpp:124-159 | one to four workers can jam in a run that never has more than 511 + 2047 + 1 unfinished tasks of a priority, though every submission was in time |
| LifecycleMetrics.MetricsConservation | include/task_engine/performance_monitor.hpp:34-68 | submitted, completed, failed, retried and in-flight counters balance in every state of every run |
| LifecycleMetrics.StepBalances | include/task_engine/task_executor.hpp:195-236 | every step keeps that balance |
| TaskExecutors.TaskExecutor.SubmitInternal | include/task_engine/task_executor.hpp:156-193 | the id returned is the next one; the task is filed with its known edges, priority and limits, counted, and queued exactly when nothing is left to wait for |
| TaskExecutors.TaskExecutor.SchedulerPass | include/task_engine/task_executor.hpp:273-283 | one scheduler step for each task ready at the start, and for no other |
| TaskExecutors.TaskExecutor.StartTask | include/task_engine/task_executor.hpp:195-206 | the task moves from the queue to the running ones, the start is counted and noted and the attempt begins; invariant kept |
| TaskExecutors.TaskExecutor.ReturnTask | include/task_engine/task.hpp:91-112 | the task moves on to be settled, completed exactly when its attempt kept all limits and did not throw; invariant kept |
| TaskExecutors.TaskExecutor.SettleTask | include/task_engine/task_executor.hpp:207-236 | completion, retry or final failure with the matching counters; exactly a completed task's execution time enters total and extrema; dependents are notified only when the task is through; invariant kept |
| TaskExecutors.TaskExecutor.HandleFailure | include/task_engine/task_executor.hpp:222-236 | a retry if the budget allows, otherwise the end of the task |
| BitMask.PowerOfTwoTest | include/task_engine/task_queue.hpp:23-37 | c & (c - 1) is zero exactly for powers of two |
| BitMask.MaskIsRemainder | include/task_engine/task_queue.hpp:50-71 | masking with c - 1 is the remainder modulo a power of two c |
| TaskQueues.AcceptsCapacityIff | include/task_engine/task_queue.hpp:23-37 | the constructor accepts zero and the powers of two |
| TaskQueues.RingPush | include/task_engine/task_queue.hpp:50-71 | writing the slot behind the last one appends to the sequence |
| TaskQueues.RingPop | include/task_engine/task_queue.hpp:96-120 | clearing the first slot drops the head of the sequence |
| TaskQueues.LockFreeTaskQueue.constructor | include/task_engine/task_queue.hpp:23-37 | an empty queue |
| TaskQueues.LockFreeTaskQueue.TryEnqueue | include/task_engine/task_queue.hpp:50-71 | appends, exactly when fewer than capacity - 1 tasks are inside |
| TaskQueues.LockFreeTaskQueue.TryDequeue | include/task_engine/task_queue.hpp:96-120 | removes and returns the oldest task, exactly when there is one |
| TaskQueues.LockFreeTaskQueue.TryEnqueueBatch | include/task_engine/task_queue.hpp:146-153 | leaves exactly the accepted prefix, as long as there is room |
| TaskQueues.LockFreeTaskQueue.TryDequeueBatch | include/task_engine/task_queue.hpp:155-166 | takes the smaller of the array's and the queue's size from the front |
| TaskQueues.LockFreeTaskQueue.Empty | include/task_engine/task_queue.hpp:171-174 | empty if and only if the contents are |
| TaskQueues.LockFreeTaskQueue.Full | include/task_engine/task_queue.hpp:176-181 | full if and only if capacity - 1 tasks are inside |
| TaskQueues.LockFreeTaskQueue.Size | include/task_engine/task_queue.hpp:186-193 | the number of tasks, also when the ring wraps round |
| TaskQueues.LockFreeTaskQueue.Slack | include/task_engine/task_queue.hpp:195-197 | capacity less the number of tasks, never zero |
| TaskQueues.LockFreeTaskQueue.Clear | include/task_engine/task_queue.hpp:199-208 | the loop over the taken slots leaves an empty queue |
| QueueSpsc.SpscIsABoundedFifo | include/task_engine/task_queue.hpp:50-120 | in every interleaving of one producer's and one consumer's steps, enqueued = dequeued followed by the contents, at most capacity - 1 |
| QueueSpsc.SpscClaimsSucceed | include/task_engine/task_queue.hpp:50-120 | a claim fails only spuriously, and the consumer takes the oldest task |
| QueueSpsc.LoadTailKeeps | include/task_engine/task_queue.hpp:50-60 | the producer reports a full queue exactly when it was full at its load of head |
| QueueSpsc.TakeTailKeeps | include/task_engine/task_queue.hpp:96-104 | the consumer reports an empty queue exactly when nothing announced is left |
| QueueMpmc.MpmcConservesTasks | include/task_engine/task_queue.hpp:50-120 | for any threads and interleaving: successful enqueues = dequeues plus slots, and all indices stay in the buffer |
| QueueSpsc.RestAgrees | include/task_engine/task_queue.hpp:50-120 | when neither side is inside a call head meets tail exactly where the slot is free |
| QueueStranding.QuietStuckIff | include/task_engine/task_queue.hpp:50-120 | a queue at rest never hands out a task again if and only if it has one slot or head and tail disagree with the slot at head |
| QueueStranding.StrandedForGood | include/task_engine/task_queue.hpp:50-120 | once head meets tail at a taken slot, no steps change the slots again |
| QueueStranding.BlockedForGood | include/task_engine/task_queue.hpp:50-120 | once the slot at head is free while tail is elsewhere, no steps take a task out again |
| QueueThreads.TwoProducersStick | include/task_engine/task_queue.hpp:50-120 | a run of any capacity from two on in which a late producer leaves the queue stuck, each task enqueued once |
| QueueThreads.TwoConsumersStick | include/task_engine/task_queue.hpp:50-120 | the same for one producer and a late consumer, from four slots on |
| QueueThreads.OneOfEachNeverSticks | include/task_engine/task_queue.hpp:50-120 | one producer and one consumer, or one thread in both roles, never leave it stuck |
| QueueThreads.OneProducerTwoSlotsNeverSticks | include/task_engine/task_queue.hpp:50-120 | with two slots one producer bears any number of consumers |
| QueueThreads.MayStickIff | include/task_engine/task_queue.hpp:50-120 | for every capacity and all threads: a stuck state can be reached if and only if there are two producers and two slots, or two consumers and four slots |
| PriorityLevels.DequeueTakesTheBest | include/task_engine/thread_pool.hpp:51-58 | a dequeue takes the oldest waiting task that no other outranks and leaves the others in order |
| PriorityLevels.DequeueFindsNothingIff | include/task_engine/thread_pool.hpp:51-58 | it finds nothing if and only if nothing waits |
| PriorityLevels.IndexIsRank | include/task_engine/task.hpp:35-40 | the queue indices order the priorities as their names do: Critical over High over Normal over Low |
| PriorityLevels.TakenIsHighest | include/task_engine/thread_pool.hpp:51-58 | by names: the first task of a priority that nothing waiting outranks, and the other queues as they were |
| PriorityLevels.LevelsRefineTheList | include/task_engine/thread_pool.hpp:36-79 | for any mix of operations the four levels answer as one list does |
| PriorityLevels.StableSortSorts | include/task_engine/thread_pool.hpp:36-58 | the reference sort puts nothing before a task that outranks it and keeps each priority's order |
| PriorityLevels.DrainIsStableSort | include/task_engine/thread_pool.hpp:51-58 | draining yields the stable sort by descending priority |
| PoolModel.PoolConservesTasks | include/task_engine/thread_pool.hpp:124-240 | over any submissions and searches each accepted task is in one queue or with one worker; pending is accepted less taken |
| PoolModel.SearchFindsNothingIff | include/task_engine/thread_pool.hpp:211-240 | a worker's search finds nothing if and only if every queue is empty |
| PoolModel.SearchOrder | include/task_engine/thread_pool.hpp:219-240 | by contents: the own set if it has a task, else the global one, else the first other worker's in index order; only that set changes |
| PoolModel.RoomOrder | include/task_engine/thread_pool.hpp:124-159 | the set of the worker in turn below 511 tasks of the priority, else the global one below 2047, else nowhere |
| PoolModel.TurnsAreTaken | include/task_engine/thread_pool.hpp:205-208 | among as many consecutive submissions as workers each worker is offered exactly one |
| ThreadPools.PriorityQueueSet.TryEnqueue | include/task_engine/thread_pool.hpp:36-42 | only the queue of the priority gains the task; a full one refuses |
| ThreadPools.PriorityQueueSet.TryDequeueHighest | include/task_engine/thread_pool.hpp:51-58 | takes the first task of the highest priority present, told by names; loses and invents nothing |
| ThreadPools.PriorityQueueSet.Empty | include/task_engine/thread_pool.hpp:64-71 | true if and only if no level holds a task |
| ThreadPools.PriorityQueueSet.Size | include/task_engine/thread_pool.hpp:73-79 | the number of tasks on all levels |
| ThreadPools.ThreadPool.constructor | include/task_engine/thread_pool.hpp:98-112 | an empty pool of disjoint queue sets |
| ThreadPools.ThreadPool.TrySubmit | include/task_engine/thread_pool.hpp:124-159 | the task goes to the next worker's set, else the global set, else nowhere; exactly one queue gains it |
| ThreadPools.ThreadPool.TrySubmitToLocal | include/task_engine/thread_pool.hpp:206-209 | workers take turns, also when a set refuses |
| ThreadPools.ThreadPool.FindTask | include/task_engine/thread_pool.hpp:211-240 | own set, global set, then the others in turn, told by what the sets hold; what is found leaves exactly one queue |
| ThreadPools.ThreadPool.PendingTasks | include/task_engine/thread_pool.hpp:197-203 | the number of tasks in all queues |
| PerformanceMonitors.PerformanceMonitor.RecordStart | include/task_engine/performance_monitor.hpp:38-49 | one more in flight, and the peak is the larger of itself and that |
| PerformanceMonitors.PerformanceMonitor.RecordCompletion | include/task_engine/performance_monitor.hpp:51-59 | counters, total and extrema; a negative time enters the extrema as a huge unsigned one |
| PerformanceMonitors.PerformanceMonitor.UpdateExtrema | include/task_engine/performance_monitor.hpp:154-174 | maximum and minimum, despite spurious failures |
| PerformanceMonitors.PerformanceMonitor.RecordFailure | include/task_engine/performance_monitor.hpp:61-64 | one more failed, one fewer in flight |
| PerformanceMonitors.PerformanceMonitor.RecordRetry | include/task_engine/performance_monitor.hpp:66-68 | one more retried |
| ExtremumCells.ExtremumIsExact | include/task_engine/performance_monitor.hpp:154-174 | in every interleaving the cell moves one way only, holds a value brought to it, and is their extreme whenever no thread is inside |
| ExtremumCells.PeakIsExact | include/task_engine/performance_monitor.hpp:38-49 | the peak never decreases, never passes the highest number in flight, and equals it whenever no thread is inside |
| RateLimiters.TokensNeverExceedTheCap | include/task_engine/rate_limiter.hpp:45-68 | tokens stay at or below the cap over any requests |
| RateLimiters.GrantsSinceCreation | include/task_engine/rate_limiter.hpp:45-97 | from creation on, at most the cap plus one refill for each whole interval |
| RateLimiters.GrantsInAWindow | include/task_engine/rate_limiter.hpp:45-68 | in any window, at most twice the cap plus one refill for each whole interval |
| RateLimiters.WaitingEnds | include/task_engine/rate_limiter.hpp:73-77 | a waiter is granted a token once one whole interval has passed since the last refill |
| RateLimiters.GrantsWithoutRefill | include/task_engine/rate_limiter.hpp:45-68 | requests within an interval of the last refill are granted exactly as often as there are tokens |
| RateLimiters.GrantsAfterRefill | include/task_engine/rate_limiter.hpp:51-68 | requests within an interval of one that refills are granted exactly as often as tokens, cap and the refill for all whole intervals since the last one allow |
| RateLimiters.CategoriesDoNotInterfere | include/task_engine/rate_limiter.hpp:31-97 | a category's answers are those it gets with all calls for other categories left out |
| RateLimiters.CallsKeepTheCap | include/task_engine/rate_limiter.hpp:31-97 | no calls on any categories put more tokens in a bucket than its cap |
| RateLimiters.LimiterCreationBound | include/task_engine/rate_limiter.hpp:45-97 | a category first asked for in a window gets at most the default cap plus one refill for each whole interval |
| RateLimiters.ReachableWindowBound | include/task_engine/rate_limiter.hpp:31-97 | the window bound after any earlier calls on a new limiter, for categories asked for before and new ones |
| RateLimiters.RateLimiter.SetLimit | include/task_engine/rate_limiter.hpp:31-39 | a full bucket with the new limit, whatever it is, other categories untouched |
| RateLimiters.RateLimiter.TryAcquire | include/task_engine/rate_limiter.hpp:45-68 | the answer and the new bucket of one category, in whole intervals of 1000000 nanoseconds for each millisecond |
| RateLimiters.RateLimiter.GetBucket | include/task_engine/rate_limiter.hpp:86-97 | the category's bucket, made from the default limit if there was none |
| RoundRobin.WindowsAreFair | include/task_engine/distributed_executor.hpp:261-273 | as many consecutive selections as eligible nodes are those nodes, each once, from any cursor |
| RoundRobin.CountsDifferByAtMostOne | include/task_engine/distributed_executor.hpp:261-273 | over any run no eligible node is chosen more than once more than another |
| RoundRobin.ChosenIsNext | include/task_engine/distributed_executor.hpp:261-273 | counting places forward from the cursor no eligible node is passed over, and the next search begins behind the choice |
| RoundRobin.NoStarvation | include/task_engine/distributed_executor.hpp:261-273 | a node that stays eligible is chosen within as many selections as there are nodes, however the others change |
| DistributedExecutors.DistributedExecutor.AddNode | include/task_engine/distributed_executor.hpp:73-81 | an idle reachable node at the end; duplicates of an address allowed |
| DistributedExecutors.DistributedExecutor.RemoveNode | include/task_engine/distributed_executor.hpp:83-90 | every entry of the address goes, the others stay in order, the cursor stays |
| DistributedExecutors.RemainingContents | include/task_engine/distributed_executor.hpp:83-90 | removal takes all entries of the address and no other |
| DistributedExecutors.RemainingInOrder | include/task_engine/distributed_executor.hpp:83-90 | what stays keeps its order |
| DistributedExecutors.DistributedExecutor.UpdateNodeMetrics | include/task_engine/distributed_executor.hpp:112-124 | only the first entry of the address gets the snapshot, its load and the heartbeat |
| DistributedExecutors.DistributedExecutor.MarkNodeUnreachable | include/task_engine/distributed_executor.hpp:126-134 | only the first entry of the address becomes unreachable |
| DistributedExecutors.DistributedExecutor.SelectRoundRobin | include/task_engine/distributed_executor.hpp:261-273 | the next eligible node from any cursor, null if and only if there is none |
| DistributedExecutors.DistributedExecutor.SelectLeastLoaded | include/task_engine/distributed_executor.hpp:249-260 | the first eligible node of the smallest load, null if and only if there is none |
| DistributedExecutors.DistributedExecutor.SelectNode | include/task_engine/distributed_executor.hpp:241-288 | by policy; a selected node is in the table and reachable, and under the two balancing policies below its capacity, with null only if there is no such node |
| TimedScheduling.StepKeeps | include/task_engine/task_scheduler.hpp:39-174 | every client and loop step keeps the scheduler's invariant |
| TimedScheduling.SchedulesAreKept | include/task_engine/task_scheduler.hpp:39-174 | in every interleaving: one-time tasks at most once and never early, dispatch k of a periodic task not before its due time, no id twice in the heap |
| TimedScheduling.DueTimesAreExact | include/task_engine/task_scheduler.hpp:137-174 | in every run a task in the heap is due at its plan's first time, or one interval after it was last popped, and so was every dispatch |
| TimedScheduling.DriftIsTheDelays | include/task_engine/task_scheduler.hpp:149-166 | dispatch k is due at the first time plus k intervals plus the sum of the delays of the pops before it |
| TimedScheduling.PunctualPopsKeepThePlan | include/task_engine/task_scheduler.hpp:149-166 | if every pop of a task is on time, dispatch k is popped at exactly the first time plus k intervals |
| TimedScheduling.ScheduledMeans | include/task_engine/task_scheduler.hpp:39-90 | a scheduling call uses an id not used before and its plan stays what was asked for |
| TimedScheduling.CancelTrueIsFinal | include/task_engine/task_scheduler.hpp:95-113 | after `cancel` has answered true the id is never dispatched again |
| TimedScheduling.CancelIsFinalIff | include/task_engine/task_scheduler.hpp:95-174 | a cancelled id is final if and only if the loop does not hold the task |
| TimedScheduling.CancelFalseIsNotFinal | include/task_engine/task_scheduler.hpp:95-174 | a reachable state where `cancel` answers false and the task is dispatched again |
| DispatchDelay.LoopRestsIff | include/task_engine/task_scheduler.hpp:137-174 | the loop can do nothing if and only if the heap it looks at is empty or it sleeps and its time has not come |
| DispatchDelay.OnlyNewcomersAreOverslept | include/task_engine/task_scheduler.hpp:137-174 | a due task that the loop does nothing about was scheduled after the loop last read the time it sleeps for, which is later than its own |
| DispatchDelay.NewcomerIsOverslept | include/task_engine/task_scheduler.hpp:167-172 | a run after which a task has been due for four ticks and the loop can do nothing |
| DispatchDelay.DueTaskIsServed | include/task_engine/task_scheduler.hpp:137-174 | a due task that is not cancelled is dispatched within three loop steps for each task ahead of it, for each call that gets another ahead of it, and seven more |
| TaskSchedulers.TaskScheduler.ScheduleAt | include/task_engine/task_scheduler.hpp:39-56 | one entry with a fresh id and its plan recorded; an empty name uses up an id of its own |
| TaskSchedulers.TaskScheduler.SchedulePeriodic | include/task_engine/task_scheduler.hpp:73-90 | the same for a repeating entry, first due one interval from now |
| TaskSchedulers.TaskScheduler.Cancel | include/task_engine/task_scheduler.hpp:95-113 | rebuilding the heap drops the id; true if and only if it was there |
| TaskSchedulers.TaskScheduler.PopDue | include/task_engine/task_scheduler.hpp:137-173 | takes an earliest task, exactly when one is due, and otherwise sleeps until the earliest is |
| TaskSchedulers.TaskScheduler.WakeUp | include/task_engine/task_scheduler.hpp:167-172 | the loop looks again exactly when the time it sleeps for has come |
| TaskSchedulers.TaskScheduler.SubmitTask | include/task_engine/task_scheduler.hpp:157-158 | hands exactly the popped task to the executor, and holds on to it only if it repeats |
| TaskSchedulers.TaskScheduler.PushBack | include/task_engine/task_scheduler.hpp:160-166 | puts the held task back, due one interval after the pop rather than after the dispatch |
| TaskSchedulers.Top | include/task_engine/task_scheduler.hpp:176-180 | an earliest entry, whichever among equals |
| TaskCaches.GetAgreesWithLog | include/task_engine/task_cache.hpp:29-93 | `get` answers the last put not followed by a remove or clear, exactly up to its expiry |
| TaskCaches.HousekeepingIsInvisible | include/task_engine/task_cache.hpp:39-83 | extra `get` and `cleanup_expired` calls change no later answer |
| TaskCaches.PutThenGet | include/task_engine/task_cache.hpp:29-53 | a result is answered for its own lifetime, or the default one if it has none, to the last instant and no longer |
| TaskCaches.InsertedCall | include/task_engine/task_cache.hpp:39-83 | inserting such a call anywhere leaves the effects of a log as they were |
| TaskCaches.CleanupLeavesWhatIsAnswered | include/task_engine/task_cache.hpp:73-83 | after a cleanup the cache holds exactly the keys still answered |
| TaskCaches.TaskResultCache.Put | include/task_engine/task_cache.hpp:29-34 | one entry, with the given or the default lifetime |
| TaskCaches.TaskResultCache.Get | include/task_engine/task_cache.hpp:39-53 | the answer, and the eviction of an expired entry |
| TaskCaches.TaskResultCache.Contains | include/task_engine/task_cache.hpp:58-60 | whether `get` answers, with its eviction |
| TaskCaches.TaskResultCache.CleanupExpired | include/task_engine/task_cache.hpp:73-83 | the erasing walk leaves exactly the entries not expired |

## Left out

- `TaskExecutor::cancel`, `submit_async`, promises and futures: they can deliver a completion twice, so the exactly-once properties are for runs without them.
- Memory orders, cache-line alignment, condition variables, thread start, join and shutdown: steps are sequentially consistent, and pool properties are for a pool in operation that is not paused.
- Races inside one modelled step: between the edges of a new task and the scheduler, between the ready list and the marks, and inside `submit_internal` and `handle_failure`.
- The waiting variants of the queue operations with their timeouts. In the class ThreadPool `submit` is its successful attempt; threads that wait for room are in `LifecyclePool`.
- `remove_task` on graphs whose completions have been delivered: the executor never calls it. The counters are then no longer the numbers of entries.
- Machine integers: ids, counters, tokens, the round-robin counter and times are unbounded. Only the constructor's mask, the loads and capacities of nodes, and the cast of an execution time are at their machine width.
- Clocks, timeouts and deadlines: readings are parameters, and the end of an attempt is an arbitrary success or failure.
- Submitting to a pool without threads, using a queue of capacity zero, and asking a token bucket whose refill interval is zero: the code divides by zero or indexes an empty buffer there. Constructing the first two and setting such a limit are modelled.
- The class TaskExecutor keeps the pool as one bag of queued ids; that the bag is what pool and waiting threads hold is shown on values in `LifecyclePool`.
- `PerformanceMonitor::reset`, queue-wait times, cancellations, averages and throughput.
- Transport, broadcast, heartbeats and in-memory executors of `DistributedExecutor`; only its node table and selection are modelled.
- The task function, options and callback that a scheduled task carries, and `schedule_after`, which is `schedule_at` with a computed time.
- RateLimiters.RateLimiter.TryAcquire: the bucket asked has a refill amount that is not negative and an interval above zero, although their types allow others; the code would divide by zero or wrap around.
- LifecycleSafety.AtRestIffOnlySubmissionsAreEnabled: leaves out threads that wait for room in full queues, which `LifecycleJam.StoppedIff` takes in.
- LifecycleCrowd.JamTakesACrowd: shown to be the least number for one to four workers only. With more workers than priorities `submit` passes the local queues of blocked workers in turn, which may take further tasks.
- TaskSchedulers.Top: finds the minimum by a walk, because the heap algorithm of the C++ library is not part of this model.
- Config, MetricsExporter, HealthMonitor, ResourceMonitor, TaskPreemptor, TaskGroup, TaskBatch, TaskChain and the sources under `src`: formatting, file access or thin wrappers.
