/**
 * A single job queue (JobQueueT), read sequentially: the FIFO of pending
 * jobs, the worker count, the idle counter and the queue's id in its group.
 * The lock-free container is a sequence; what a job's run(cookie) does is
 * abstracted to the boolean it returns.
 */
module JobQueues {

  /** C++ `unsigned`: 32 bits, wrapping. */
  newtype u32 = x: int | 0 <= x < 0x1_0000_0000

  /** `++x` on an unsigned: wraps from the largest value to zero. */
  function Increment(x: u32): (r: u32)
    ensures x as int + 1 < 0x1_0000_0000 ==> r as int == x as int + 1
    ensures x as int + 1 == 0x1_0000_0000 ==> r == 0
  {
    if x == 0xFFFF_FFFF then 0 else x + 1
  }

  /**
   * A job. `completes` is what its run(cookie) returns; `deleted` records
   * that the queue has released it with `delete job`.
   */
  class Job {
    const completes: bool
    var deleted: bool

    constructor (completes: bool)
      ensures this.completes == completes && !deleted
    {
      this.completes := completes;
      deleted := false;
    }

    /** run(cookie): true means the job is finished and the caller owns (and frees) it. */
    method Run() returns (done: bool)
      ensures done == completes
    {
      done := completes;
    }
  }

  class JobQueue {
    /** m_queue: pending jobs, front first. */
    var q: seq<Job>
    /** m_numthrs: number of threads working on the queue (only compared here). */
    var numthrs: nat
    /** m_idle_count: number of idle threads (only compared and reset here). */
    var idleCount: nat
    /** m_id: position of this queue in its group. */
    var id: u32

    /**
     * Ownership discipline: every pending job is still alive, and no job is
     * pending twice (so releasing one can never leave a dangling entry).
     */
    ghost predicate Valid()
      reads this, q
    {
      && (forall i :: 0 <= i < |q| ==> !q[i].deleted)
      && (forall i, j :: 0 <= i < j < |q| ==> q[i] != q[j])
    }

    /** The constructor starts with no jobs, no threads and no idle threads. */
    constructor ()
      ensures Valid()
      ensures q == [] && numthrs == 0 && idleCount == 0
    {
      q := [];
      numthrs := 0;
      idleCount := 0;
    }

    /** has_idle(): at least one thread of this queue is idle. */
    function HasIdle(): (r: bool)
      reads this
      ensures r <==> idleCount != 0
    {
      idleCount != 0
    }

    /** enqueue(job): push one job at the back. */
    method Enqueue(job: Job)
      modifies this
      ensures q == old(q) + [job]
      ensures numthrs == old(numthrs) && idleCount == old(idleCount) && id == old(id)
      ensures old(Valid()) && !job.deleted && job !in old(q) ==> Valid()
    {
      q := q + [job];
    }

    /** set_id(id). */
    method SetId(newId: u32)
      modifies this
      ensures id == newId
      ensures q == old(q) && numthrs == old(numthrs) && idleCount == old(idleCount)
    {
      id := newId;
    }

    /**
     * try_run(): on an empty queue, report whether the queue is not finished
     * (some thread is not idle). Otherwise pop the front job, run it, delete
     * it when run returned true, and report true.
     */
    method TryRun() returns (r: bool)
      modifies this, q
      ensures numthrs == old(numthrs) && idleCount == old(idleCount) && id == old(id)
      ensures old(q) == [] ==> q == [] && r == (idleCount != numthrs)
      ensures old(q) != [] ==> r && q == old(q)[1..]
      ensures old(q) != [] ==> old(q)[0].deleted == (old(q[0].deleted) || old(q)[0].completes)
      ensures forall i :: 1 <= i < |old(q)| && old(q)[i] != old(q)[0] ==> old(q)[i].deleted == old(q[i].deleted)
      ensures old(Valid()) && old(q) != [] ==> (old(q)[0].deleted <==> old(q)[0].completes)
      ensures old(Valid()) ==> Valid()
    {
      if q == [] {
        r := idleCount != numthrs;
        return;
      }
      var job := q[0];
      q := q[1..];
      var done := job.Run();
      if done {
        job.deleted := true;
      }
      r := true;
    }

    /**
     * The sequential prologue of loop(): the idle counter is reset before the
     * worker threads start. The parallel region that follows is not modelled.
     */
    method LoopPrologue()
      modifies this
      ensures idleCount == 0
      ensures q == old(q) && numthrs == old(numthrs) && id == old(id)
    {
      idleCount := 0;
    }
  }
}
