# Job-queue engine: sequential core

This project models the deterministic parts of the job-queue engine in
`src/tools/jobqueue.hpp` and proves properties of them. The engine runs
"jobs" on a pool of OpenMP worker threads per queue. Queues can be grouped
into a `NumaJobQueueGroup`, one queue per NUMA node, that shares out the
hardware threads between them.

The model has three modules, one per part of the header:

- `ThreadAllocation` (`allocation.dfy`) holds the integer arithmetic of
  `NumaJobQueueGroup`. `calcThreadNum` splits the thread total evenly and
  gives the remainder to the lowest-indexed queues. The per-queue body of
  `numaLaunch` repeats that split, raises a zero share to one and picks the
  NUMA node `k % realNumaNodes`. The outer launch runs
  `min(total, queues)` tasks. These are pure functions, with lemmas: the
  shares sum to the total, they differ by at most one, and the thread
  counts `numaLaunch` passes to `numaLoop` sum to `max(total, queues)`.
- `JobQueues` (`jobqueue.dfy`) holds a `Job` class and a `JobQueue` class.
  A `Job` has a fixed `run` outcome and a `deleted` flag. A `JobQueue` has
  the pending jobs as a FIFO sequence `q`, plus `numthrs`, `idleCount` and
  `id`. Its methods are `enqueue`, `has_idle`, `set_id`, `try_run` and the
  idle reset that opens `loop`. `Valid()` is the ownership invariant:
  pending jobs are alive and none is pending twice. `try_run` keeps it and
  deletes the job it runs exactly when `run` returned true.
- `JobQueueGroups` (`group.dfy`) holds `DefaultJobQueueGroup::assist` and a
  `NumaJobQueueGroup` class whose field `queues` is the registry.
  `add_jobqueue` keeps ids dense: the queue at position `i` has id `i`.
  `numaLaunch` is modelled as the list of `(node, threads)` arguments that
  it passes to each queue's `numaLoop`. `assist` is modelled as written: it
  steps its local `id` round-robin through every other queue once, and then
  returns `false`.

Environment queries are parameters: `maxThreads` is the value of
`omp_get_max_threads()` and `configuredNodes` is the value of
`numa_num_configured_nodes()`. The queue ids and assist's walking `id`,
C++ `unsigned`, are the newtype `u32`, and the model writes out their
wrap-around:
- `set_id` receives `m_queues.size()` truncated to 32 bits.
- `++id` in `assist` may wrap to 0.

The unsigned counters `m_numthrs` and `m_idle_count` are `nat`: the
modelled operations only compare them and reset the idle counter to 0, so
no wrap-around can arise.

The comment on `assist` (src/tools/jobqueue.hpp:308) says it is how a
queue helps other queues. Its body only computes the round-robin ids,
though: it never pops or runs a job from another queue. The model follows
the body.

## Model

| member | source | states |
|---|---|---|
| `ThreadAllocation.RealNumaNodes` | src/tools/jobqueue.hpp:274-275 | the NUMA node count is at least 1; a configured count of at least 1 is kept, anything smaller becomes 1 |
| `ThreadAllocation.CalcThreadNum` | src/tools/jobqueue.hpp:256-268 | the share of queue k is the even share `total / n` or one more, and it is one more exactly when `k < total % n` |
| `ThreadAllocation.CalcThreadNumIgnoresNodes` | src/tools/jobqueue.hpp:258-259 | the NUMA node count that calcThreadNum queries has no effect on its result |
| `ThreadAllocation.AllocationBalanced` | src/tools/jobqueue.hpp:261-265 | a lower-indexed queue never gets fewer threads than a higher one, and never more than one extra |
| `ThreadAllocation.AllocatedPrefix` | src/tools/jobqueue.hpp:261-265 | the first k queues together receive `k * (total / n) + min(k, total % n)` threads |
| `ThreadAllocation.AllocationSumsToTotal` | src/tools/jobqueue.hpp:256-268 | the shares of queues 0 .. n-1 add up to exactly the thread total |
| `ThreadAllocation.QueuePlacement` | src/tools/jobqueue.hpp:296-302 | queue k goes to node `k % realNumaNodes`, which lies in `[0, realNumaNodes)`, with at least one thread; that is the calcThreadNum share when `total >= n` and exactly 1 when `total < n` |
| `ThreadAllocation.RunThreads` | src/tools/jobqueue.hpp:291 | the outer task count is at most the thread total and at most the queue count, and equals one of them |
| `ThreadAllocation.TotalThreadsOversubscribed` | src/tools/jobqueue.hpp:302 | a launch plan that gives every queue one thread starts one thread per queue |
| `ThreadAllocation.TotalThreadsEvenSplit` | src/tools/jobqueue.hpp:298-300 | a launch plan that gives every queue its calcThreadNum share starts the sum of those shares |
| `ThreadAllocation.LaunchedThreadTotal` | src/tools/jobqueue.hpp:278-302 | the thread counts numaLaunch passes to numaLoop sum to `max(total, n)`: exactly the total when it covers every queue, one per queue otherwise (these are requested team sizes, not threads running at once) |
| `JobQueues.Increment` | src/tools/jobqueue.hpp:316 | `++` on an unsigned adds one, and wraps from 2^32-1 to 0 |
| `JobQueues.Job.Run` | src/tools/jobqueue.hpp:61-63 | running a job yields its fixed outcome: true means the job is finished and must be deleted by the caller |
| `JobQueues.JobQueue.constructor` | src/tools/jobqueue.hpp:105-112 | a new queue has no jobs, no threads and no idle threads, and satisfies the ownership invariant |
| `JobQueues.JobQueue.HasIdle` | src/tools/jobqueue.hpp:114-117 | true iff the idle counter is not zero |
| `JobQueues.JobQueue.Enqueue` | src/tools/jobqueue.hpp:119-122 | exactly one job is appended at the back and no other field changes; appending a live job that is not already pending keeps the ownership invariant |
| `JobQueues.JobQueue.SetId` | src/tools/jobqueue.hpp:124-127 | the id becomes the given value and nothing else changes |
| `JobQueues.JobQueue.TryRun` | src/tools/jobqueue.hpp:129-142 | on an empty queue nothing changes and the result is `idleCount != numthrs`; otherwise exactly the front job is removed, the result is true, that job is deleted iff its run returned true, no other job is touched and the ownership invariant is kept |
| `JobQueues.JobQueue.LoopPrologue` | src/tools/jobqueue.hpp:179-181 | the idle counter is 0 before the workers start; the jobs, thread count and id are unchanged |
| `JobQueueGroups.DefaultAssist` | src/tools/jobqueue.hpp:226-229 | the default group's assist always returns false |
| `JobQueueGroups.NextId` | src/tools/jobqueue.hpp:316 | one round-robin step moves to the next id below the queue count, or back to 0, even when the unsigned increment wraps |
| `JobQueueGroups.RoundRobinVisitsOthersOnce` | src/tools/jobqueue.hpp:311-317 | the ids `(qid+1) % n, ..., (qid+n-1) % n` are pairwise distinct, all lie in `[0, n)`, include every id except qid, and never qid |
| `JobQueueGroups.IdAfterInRange` | src/tools/jobqueue.hpp:311-317 | for `qid < n`, after s < n iterations of assist's loop its `id` is `(qid + s) % n` |
| `JobQueueGroups.TraceInRange` | src/tools/jobqueue.hpp:311-317 | for `qid < n`, the ids stepped through in the first s < n iterations are the first s ids of the round-robin order |
| `JobQueueGroups.IdAfterOutOfRange` | src/tools/jobqueue.hpp:311-317 | for `qid >= n`, the first iteration resets `id` to 0 and iteration s leaves it at s-1 |
| `JobQueueGroups.TraceOutOfRange` | src/tools/jobqueue.hpp:311-317 | for `qid >= n`, the ids stepped through are 0, 1, ..., in order |
| `JobQueueGroups.NumaJobQueueGroup.constructor` | src/tools/jobqueue.hpp:244-245 | a new group has an empty registry, whose ids are trivially dense |
| `JobQueueGroups.NumaJobQueueGroup.AddJobQueue` | src/tools/jobqueue.hpp:248-253 | the queue is appended and its id is the old registry size (mod 2^32); earlier entries and their ids are unchanged except through aliasing; registering a new queue below 2^32 entries keeps ids equal to positions |
| `JobQueueGroups.NumaJobQueueGroup.RegisteredQueuesDistinct` | src/tools/jobqueue.hpp:248-253 | when ids equal positions, no queue is registered twice |
| `JobQueueGroups.NumaJobQueueGroup.NumaLaunch` | src/tools/jobqueue.hpp:270-306 | runThreads is `min(total, n)`; queue k is launched with `QueuePlacement(k)`, so on a node in `[0, realNumaNodes)` with at least one thread; the thread counts in the plan sum to `max(total, n)` |
| `JobQueueGroups.NumaJobQueueGroup.Assist` | src/tools/jobqueue.hpp:308-320 | returns false; for `qid < n` it steps through `(qid+1) % n, ..., (qid+n-1) % n`, every other id once and never qid, and ends on `(qid+n-1) % n`; for `qid >= n` it steps through `0, ..., n-2` |

## Left out

- The OpenMP parallel regions of `loop`, `numaLoop` and `numaLaunch`, and nested parallelism: they exist for concurrency. `numaLaunch` is modelled as the arguments it would pass to each `numaLoop`.
- The idle-spin and termination protocol of `executeThreadWork`, including the assignment of `m_numthrs` from `omp_get_num_threads()`: it depends on interleavings of threads sharing a relaxed atomic counter, which a sequential model does not capture.
- `JobQueues.JobQueue.LoopPrologue`: only the idle-counter reset before the parallel region is modelled, not the worker threads it then runs or the final emptiness assertion.
- NUMA pinning (`numa_run_on_node`, `numa_set_preferred`), `numa_num_configured_nodes` and `omp_get_max_threads`: foreign library calls; their values are parameters.
- The internals of `tbb::concurrent_queue`: it is a FIFO sequence here. The `unsafe_size` debug assertions are also not modelled.
- The process-wide memory-placement option that `loop` consults: ambient configuration that only affects placement.
- What `run(cookie)` does, including any jobs it enqueues: it is supplied by the algorithms, so each job carries only its boolean outcome. The cookie and the group back-reference of a queue are not modelled.
- The `JobQueue` wrapper that passes itself as cookie: it only forwards calls.
- `src/tools/contest.h`: the benchmark-registration harness, not part of the engine.
- `JobQueues.JobQueue.constructor`: `m_id` is left uninitialised by the source until `set_id`; the model leaves `id` unspecified after construction, and no property depends on its value.
- `ThreadAllocation.CalcThreadNum`: `maxThreads` is a `nat`, because `omp_get_max_threads()` is never negative, so Dafny's division agrees with C++'s truncating division here. The conversion of `m_queues.size()` to `int` in `numaLaunch` is assumed not to overflow.
- `JobQueueGroups.NumaJobQueueGroup.NumaLaunch`: numaLaunch on an empty group divides by zero (undefined behaviour in C++), so the model requires at least one registered queue; `ThreadAllocation.CalcThreadNum` likewise requires a positive queue count.
- `JobQueueGroups.NumaJobQueueGroup.Assist`: requires fewer than 2^32 registered queues. Beyond that the source's 32-bit loop counter `i` wraps before reaching the size, and the loop would never end.
- Work stealing by `assist` (popping and running another queue's job) is not in the code, so it is not modelled.
