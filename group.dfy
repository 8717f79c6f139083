/**
 * Job queue groups: DefaultJobQueueGroup, whose assist is a no-op, and
 * NumaJobQueueGroup, a registry of job queues with dense ids, the launch
 * plan that places each queue on a NUMA node with its share of threads, and
 * the round-robin walk of assist.
 */
module JobQueueGroups {
  import opened JobQueues
  import opened ThreadAllocation

  /** DefaultJobQueueGroup::assist: never finds work for anyone. */
  function DefaultAssist(qid: u32): (r: bool)
    ensures !r
  {
    false
  }

  /** The ids that assist(qid) steps through, in order: every id but qid, starting after it. */
  function RoundRobinOrder(qid: int, n: int): (order: seq<int>)
    requires 0 <= qid < n
    ensures |order| == n - 1
  {
    seq(n - 1, j requires 0 <= j => (qid + 1 + j) % n)
  }

  /** The value of (a % n) for 0 <= a < 2n, without a division. */
  lemma ModOnce(a: int, n: int)
    requires 0 < n && 0 <= a < 2 * n
    ensures a % n == if a < n then a else a - n
  {
    if a >= n {
      assert a == n * 1 + (a - n);
    }
  }

  /**
   * The round-robin walk visits each id other than qid exactly once, and
   * never qid itself.
   */
  lemma RoundRobinVisitsOthersOnce(qid: int, n: int)
    requires 0 <= qid < n
    ensures qid !in RoundRobinOrder(qid, n)
    ensures forall x :: 0 <= x < n && x != qid ==> x in RoundRobinOrder(qid, n)
    ensures forall x :: x in RoundRobinOrder(qid, n) ==> 0 <= x < n
    ensures forall a, b :: 0 <= a < b < n - 1 ==> RoundRobinOrder(qid, n)[a] != RoundRobinOrder(qid, n)[b]
  {
    var order := RoundRobinOrder(qid, n);
    forall j | 0 <= j < n - 1
      ensures order[j] == if qid + 1 + j < n then qid + 1 + j else qid + 1 + j - n
    {
      ModOnce(qid + 1 + j, n);
    }
    forall x | 0 <= x < n && x != qid
      ensures x in order
    {
      var j := if x > qid then x - qid - 1 else x + n - qid - 1;
      assert order[j] == x;
    }
  }

  /**
   * One step of assist's walk: increment the unsigned id and go back to 0
   * once it reaches the queue count. The increment may wrap, but either way
   * the result is the next id below n, or 0.
   */
  function NextId(id: u32, n: int): (r: u32)
    requires n < 0x1_0000_0000
    ensures r as int == if id as int + 1 < n then id as int + 1 else 0
  {
    var next := Increment(id);
    if next as int >= n then 0 else next
  }

  /** The value of assist's `id` after `steps` iterations of its loop. */
  function IdAfter(qid: u32, n: int, steps: nat): (r: u32)
    requires n < 0x1_0000_0000
  {
    if steps == 0 then qid else NextId(IdAfter(qid, n, steps - 1), n)
  }

  /** The ids assist's `id` takes in its first `steps` iterations. */
  function Trace(qid: u32, n: int, steps: nat): (t: seq<int>)
    requires n < 0x1_0000_0000
    ensures |t| == steps
  {
    if steps == 0 then [] else Trace(qid, n, steps - 1) + [IdAfter(qid, n, steps) as int]
  }

  /** For a valid qid, `id` is (qid + s) % n after s < n iterations. */
  lemma {:induction false} IdAfterInRange(qid: u32, n: int, s: nat)
    requires qid as int < n < 0x1_0000_0000 && s < n
    ensures IdAfter(qid, n, s) as int == (qid as int + s) % n
  {
    if s == 0 {
      ModOnce(qid as int, n);
    } else {
      IdAfterInRange(qid, n, s - 1);
      ModOnce(qid as int + s - 1, n);
      ModOnce(qid as int + s, n);
    }
  }

  /** For a valid qid, the first s < n iterations visit the first s ids of the round-robin order. */
  lemma {:induction false} TraceInRange(qid: u32, n: int, s: nat)
    requires qid as int < n < 0x1_0000_0000 && s < n
    ensures Trace(qid, n, s) == RoundRobinOrder(qid as int, n)[..s]
  {
    if s > 0 {
      TraceInRange(qid, n, s - 1);
      IdAfterInRange(qid, n, s);
    }
  }

  /** For an out-of-range qid, the first step resets `id` to 0 and the walk then counts up. */
  lemma {:induction false} IdAfterOutOfRange(qid: u32, n: int, s: nat)
    requires 0 <= n <= qid as int && n < 0x1_0000_0000 && 1 <= s <= n
    ensures IdAfter(qid, n, s) as int == s - 1
  {
    if s > 1 {
      IdAfterOutOfRange(qid, n, s - 1);
    }
  }

  /** For an out-of-range qid, the walk visits 0, 1, ..., s-1. */
  lemma {:induction false} TraceOutOfRange(qid: u32, n: int, s: nat)
    requires 0 <= n <= qid as int && n < 0x1_0000_0000 && s <= n
    ensures forall j :: 0 <= j < s ==> Trace(qid, n, s)[j] == j
  {
    if s > 0 {
      TraceOutOfRange(qid, n, s - 1);
      IdAfterOutOfRange(qid, n, s);
    }
  }

  class NumaJobQueueGroup {
    /** m_queues: the managed job queues, in registration order. */
    var queues: seq<JobQueue>

    /** Ids are dense and 0-based: the queue at position i carries id i. */
    ghost predicate Valid()
      reads this, queues
    {
      forall i :: 0 <= i < |queues| ==> queues[i].id as int == i
    }

    constructor ()
      ensures queues == [] && Valid()
    {
      queues := [];
    }

    /**
     * add_jobqueue(jq): give jq the current size as its id (truncated to
     * the 32 bits of set_id's parameter) and append it.
     */
    method AddJobQueue(jq: JobQueue)
      modifies this, jq
      ensures queues == old(queues) + [jq]
      ensures jq.id as int == old(|queues|) % 0x1_0000_0000
      ensures jq.q == old(jq.q) && jq.numthrs == old(jq.numthrs) && jq.idleCount == old(jq.idleCount)
      ensures forall i :: 0 <= i < old(|queues|) && old(queues)[i] != jq ==> queues[i].id == old(queues[i].id)
      ensures old(Valid()) && jq !in old(queues) && old(|queues|) < 0x1_0000_0000 ==> Valid()
    {
      jq.SetId((|queues| % 0x1_0000_0000) as u32);
      queues := queues + [jq];
    }

    /** Dense ids make the registry free of duplicates. */
    lemma RegisteredQueuesDistinct()
      requires Valid()
      ensures forall i, j :: 0 <= i < j < |queues| ==> queues[i] != queues[j]
    {
    }

    /**
     * numaLaunch(): the task count of the outer parallel loop, and for each
     * queue k the (NUMA node, thread count) pair handed to its numaLoop.
     */
    method NumaLaunch(maxThreads: nat, configuredNodes: int) returns (runThreads: int, plan: seq<Placement>)
      requires |queues| > 0
      ensures runThreads <= maxThreads && runThreads <= |queues|
      ensures runThreads == maxThreads || runThreads == |queues|
      ensures |plan| == |queues|
      ensures forall k :: 0 <= k < |queues| ==> plan[k] == QueuePlacement(k, |queues|, maxThreads, configuredNodes)
      ensures forall k :: 0 <= k < |queues| ==> 0 <= plan[k].numaNode < RealNumaNodes(configuredNodes) && plan[k].threads >= 1
      ensures TotalThreads(plan) == if maxThreads >= |queues| then maxThreads else |queues|
    {
      var numJobQueues := |queues|;
      runThreads := RunThreads(maxThreads, numJobQueues);
      plan := [];
      for k := 0 to numJobQueues
        invariant |plan| == k
        invariant forall j :: 0 <= j < k ==> plan[j] == QueuePlacement(j, numJobQueues, maxThreads, configuredNodes)
      {
        plan := plan + [QueuePlacement(k, numJobQueues, maxThreads, configuredNodes)];
      }
      assert plan == LaunchPlan(numJobQueues, maxThreads, configuredNodes);
      LaunchedThreadTotal(numJobQueues, maxThreads, configuredNodes);
    }

    /**
     * assist(qid), as written: step `id` round-robin through the other
     * queues and return false without doing any work. The ghost results
     * record the ids stepped through and the last value of `id`.
     * (The 32-bit loop counter `i` never reaches a size of 2^32 or more, so
     * the source only terminates below that size.)
     */
    method Assist(qid: u32) returns (r: bool, ghost visited: seq<int>, ghost finalId: int)
      requires |queues| < 0x1_0000_0000
      ensures !r
      ensures |visited| == if |queues| == 0 then 0 else |queues| - 1
      ensures qid as int < |queues| ==> visited == RoundRobinOrder(qid as int, |queues|)
      ensures qid as int < |queues| ==> finalId == (qid as int + |queues| - 1) % |queues|
      ensures qid as int < |queues| ==> qid as int !in visited
      ensures qid as int < |queues| ==> forall x :: 0 <= x < |queues| && x != qid as int ==> x in visited
      ensures qid as int >= |queues| ==> forall j :: 0 <= j < |visited| ==> visited[j] == j
    {
      var n := |queues|;
      var id := qid;
      var i := 1;
      visited := [];
      while i < n
        invariant 1 <= i <= if n == 0 then 1 else n
        invariant id == IdAfter(qid, n, i - 1)
        invariant visited == Trace(qid, n, i - 1)
      {
        id := NextId(id, n);
        visited := visited + [id as int];
        i := i + 1;
      }
      finalId := id as int;
      if qid as int < n {
        TraceInRange(qid, n, n - 1);
        IdAfterInRange(qid, n, n - 1);
        RoundRobinVisitsOthersOnce(qid as int, n);
      } else {
        TraceOutOfRange(qid, n, i - 1);
      }
      r := false;
    }
  }
}
