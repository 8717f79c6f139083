/**
 * Thread-allocation arithmetic of NumaJobQueueGroup: how the hardware thread
 * total is split over the registered job queues, which NUMA node each queue
 * is placed on, and how many outer launch tasks are started.
 *
 * The two foreign queries become parameters:
 *   maxThreads      -- the value of omp_get_max_threads() (never negative),
 *   configuredNodes -- the value of numa_num_configured_nodes().
 */
module ThreadAllocation {

  /** The NUMA node count used for placement: the configured count, raised to 1 when it is below 1. */
  function RealNumaNodes(configuredNodes: int): (r: int)
    ensures r >= 1
    ensures configuredNodes >= 1 ==> r == configuredNodes
    ensures configuredNodes < 1 ==> r == 1
  {
    if configuredNodes < 1 then 1 else configuredNodes
  }

  /**
   * calcThreadNum(k, numJobQueues): the even share of the thread total, plus
   * one for the queues whose index lies below the remainder. The NUMA node
   * count is queried and clamped but plays no part in the result.
   */
  function CalcThreadNum(k: int, numJobQueues: int, maxThreads: nat, configuredNodes: int): (r: nat)
    requires numJobQueues > 0
    ensures r == maxThreads / numJobQueues || r == maxThreads / numJobQueues + 1
    ensures r == maxThreads / numJobQueues + 1 <==> k < maxThreads % numJobQueues
  {
    var realNumaNodes := RealNumaNodes(configuredNodes);
    var numThreadsPerNode := maxThreads / numJobQueues;
    var remainThreads := maxThreads % numJobQueues;
    if k < remainThreads then numThreadsPerNode + 1 else numThreadsPerNode
  }

  /** The NUMA node count never influences calcThreadNum. */
  lemma CalcThreadNumIgnoresNodes(k: int, numJobQueues: int, maxThreads: nat, nodesA: int, nodesB: int)
    requires numJobQueues > 0
    ensures CalcThreadNum(k, numJobQueues, maxThreads, nodesA) == CalcThreadNum(k, numJobQueues, maxThreads, nodesB)
  {
  }

  /** Allocations of two queues differ by at most one, and a lower index never gets fewer threads. */
  lemma AllocationBalanced(j: int, k: int, numJobQueues: int, maxThreads: nat, configuredNodes: int)
    requires numJobQueues > 0
    requires j <= k
    ensures CalcThreadNum(k, numJobQueues, maxThreads, configuredNodes)
         <= CalcThreadNum(j, numJobQueues, maxThreads, configuredNodes)
         <= CalcThreadNum(k, numJobQueues, maxThreads, configuredNodes) + 1
  {
  }

  /** Sum of calcThreadNum(j, numJobQueues) over the queue indices j in [0, k). */
  function AllocatedThreads(k: nat, numJobQueues: int, maxThreads: nat): (r: nat)
    requires numJobQueues > 0
  {
    if k == 0 then 0
    else AllocatedThreads(k - 1, numJobQueues, maxThreads) + CalcThreadNum(k - 1, numJobQueues, maxThreads, 1)
  }

  /** The first k queues together receive k even shares plus min(k, remainder) extra threads. */
  lemma {:induction false} AllocatedPrefix(k: nat, numJobQueues: int, maxThreads: nat)
    requires numJobQueues > 0
    ensures AllocatedThreads(k, numJobQueues, maxThreads)
         == k * (maxThreads / numJobQueues)
            + (if k < maxThreads % numJobQueues then k else maxThreads % numJobQueues)
  {
    if k > 0 {
      AllocatedPrefix(k - 1, numJobQueues, maxThreads);
      var q := maxThreads / numJobQueues;
      assert (k - 1) * q + q == k * q;
    }
  }

  /** Over all numJobQueues queues the allocations add up to exactly the thread total. */
  lemma AllocationSumsToTotal(numJobQueues: int, maxThreads: nat)
    requires numJobQueues > 0
    ensures AllocatedThreads(numJobQueues, numJobQueues, maxThreads) == maxThreads
  {
    AllocatedPrefix(numJobQueues, numJobQueues, maxThreads);
    assert numJobQueues * (maxThreads / numJobQueues) + maxThreads % numJobQueues == maxThreads;
  }

  /** What numaLaunch passes to numaLoop for one queue: the NUMA node and the thread count. */
  datatype Placement = Placement(numaNode: int, threads: int)

  /**
   * The body of numaLaunch's per-queue loop for queue k. It repeats the split
   * of calcThreadNum on its own, then raises a zero allocation to one.
   */
  function QueuePlacement(k: int, numJobQueues: int, maxThreads: nat, configuredNodes: int): (p: Placement)
    requires numJobQueues > 0
    requires 0 <= k
    ensures 0 <= p.numaNode < RealNumaNodes(configuredNodes)
    ensures p.numaNode == k % RealNumaNodes(configuredNodes)
    ensures p.threads >= 1
    ensures maxThreads >= numJobQueues ==> p.threads == CalcThreadNum(k, numJobQueues, maxThreads, configuredNodes)
    ensures maxThreads < numJobQueues ==> p.threads == 1
  {
    var realNumaNodes := RealNumaNodes(configuredNodes);
    var numThreadsPerNode := maxThreads / numJobQueues;
    var remainThreads := maxThreads % numJobQueues;
    var numaNode := k % realNumaNodes;
    var nodeThreads := if k < remainThreads then numThreadsPerNode + 1 else numThreadsPerNode;
    Placement(numaNode, if nodeThreads == 0 then 1 else nodeThreads)
  }

  /** The task count of numaLaunch's outer parallel loop: the smaller of the thread total and the queue count. */
  function RunThreads(maxThreads: nat, numJobQueues: int): (r: int)
    ensures r <= maxThreads && r <= numJobQueues
    ensures r == maxThreads || r == numJobQueues
  {
    if maxThreads < numJobQueues then maxThreads else numJobQueues
  }

  /** The placements of all queues 0 .. numJobQueues-1, in queue order. */
  function LaunchPlan(numJobQueues: int, maxThreads: nat, configuredNodes: int): (plan: seq<Placement>)
    requires numJobQueues > 0
    ensures |plan| == numJobQueues
    ensures forall k :: 0 <= k < numJobQueues ==> plan[k] == QueuePlacement(k, numJobQueues, maxThreads, configuredNodes)
  {
    seq(numJobQueues, k requires 0 <= k => QueuePlacement(k, numJobQueues, maxThreads, configuredNodes))
  }

  /** Sum of the thread counts of a plan. */
  function TotalThreads(plan: seq<Placement>): (r: int)
  {
    if plan == [] then 0 else TotalThreads(plan[..|plan| - 1]) + plan[|plan| - 1].threads
  }

  /** A plan that starts every queue with one thread totals one thread per queue. */
  lemma {:induction false} TotalThreadsOversubscribed(plan: seq<Placement>)
    requires forall k :: 0 <= k < |plan| ==> plan[k].threads == 1
    ensures TotalThreads(plan) == |plan|
  {
    if plan != [] {
      TotalThreadsOversubscribed(plan[..|plan| - 1]);
    }
  }

  /** A plan that gives queue j calcThreadNum(j) threads, for every j, totals AllocatedThreads. */
  lemma {:induction false} TotalThreadsEvenSplit(plan: seq<Placement>, numJobQueues: int, maxThreads: nat)
    requires numJobQueues > 0
    requires forall k :: 0 <= k < |plan| ==> plan[k].threads == CalcThreadNum(k, numJobQueues, maxThreads, 1)
    ensures TotalThreads(plan) == AllocatedThreads(|plan|, numJobQueues, maxThreads)
  {
    if plan != [] {
      TotalThreadsEvenSplit(plan[..|plan| - 1], numJobQueues, maxThreads);
    }
  }

  /**
   * The thread counts numaLaunch passes to numaLoop sum to
   * max(maxThreads, numJobQueues): exactly the thread total when it covers
   * every queue, and one per queue (oversubscription) when it does not.
   * These are requested team sizes; how many threads actually run at once
   * is up to the OpenMP runtime.
   */
  lemma LaunchedThreadTotal(numJobQueues: int, maxThreads: nat, configuredNodes: int)
    requires numJobQueues > 0
    ensures TotalThreads(LaunchPlan(numJobQueues, maxThreads, configuredNodes))
         == if maxThreads >= numJobQueues then maxThreads else numJobQueues
  {
    var plan := LaunchPlan(numJobQueues, maxThreads, configuredNodes);
    if maxThreads >= numJobQueues {
      forall k | 0 <= k < |plan|
        ensures plan[k].threads == CalcThreadNum(k, numJobQueues, maxThreads, 1)
      {
        CalcThreadNumIgnoresNodes(k, numJobQueues, maxThreads, configuredNodes, 1);
      }
      TotalThreadsEvenSplit(plan, numJobQueues, maxThreads);
      AllocationSumsToTotal(numJobQueues, maxThreads);
    } else {
      TotalThreadsOversubscribed(plan);
    }
  }
}
