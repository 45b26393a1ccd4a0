/**
 * The two-lane task queue of the inverter controller (`SmartTaskQueue`):
 * a primary FIFO and a retry FIFO that feed batches (primary lane first),
 * a retry ceiling that chooses between requeueing a task and giving it up,
 * and the completed and failed lists that record each task's outcome.
 * Every queue method runs under one lock in the source, so the queue is
 * modelled as a sequential object with `seq` lanes.
 */
module TaskQueue {
  import opened Wrappers

  /** `max_retry_queue` of the package settings. */
  const MaxRetryQueue: nat := 2

  /**
   * `InverterTask`. A task is handed from lane to worker to lane and is
   * never read through a second reference after it changes, so it is a value.
   */
  datatype InverterTask = InverterTask(
    fullName: string,
    targetUrl: string,
    requiredAction: string,
    invStatus: string,
    retryCount: nat,
    lastError: Option<string>,
    priority: nat,
    completionStatus: Option<string>,
    completionMessage: Option<string>)
  {
    /** The four constructor arguments: what stays the same for the whole life of a task. */
    function Key(): (string, string, string, string) {
      (fullName, targetUrl, requiredAction, invStatus)
    }
  }

  /** A freshly created task: no retry yet, no error, high priority (1). */
  function NewTask(name: string, url: string, action: string, status: string): (t: InverterTask)
    ensures t.Key() == (name, url, action, status)
    ensures t.retryCount == 0 && t.lastError == None && t.priority == 1
    ensures t.completionStatus == None && t.completionMessage == None
  {
    InverterTask(name, url, action, status, 0, None, 1, None, None)
  }

  /** `should_retry`: the task has not used up its retries yet. */
  predicate ShouldRetry(t: InverterTask, maxRetry: int) {
    t.retryCount < maxRetry
  }

  /** `mark_retry`: one more retry, the error remembered, priority lowered to 2. */
  function MarkRetry(t: InverterTask, error: Option<string>): (r: InverterTask)
    ensures r.Key() == t.Key()
    ensures r.retryCount == t.retryCount + 1
    ensures r.lastError == error && r.priority == 2
    ensures r.completionStatus == t.completionStatus && r.completionMessage == t.completionMessage
  {
    t.(retryCount := t.retryCount + 1, lastError := error, priority := 2)
  }

  /** A task only gets a retry while under the ceiling, so the ceiling is never passed. */
  lemma RetryStaysUnderCeiling(t: InverterTask, maxRetry: nat, error: Option<string>)
    requires t.retryCount <= maxRetry
    ensures ShouldRetry(t, maxRetry) ==> MarkRetry(t, error).retryCount <= maxRetry
    ensures !ShouldRetry(t, maxRetry) ==> t.retryCount == maxRetry
  {
  }

  /** The task as `mark_completed` leaves it. */
  function Completed(t: InverterTask, status: string, message: string): (r: InverterTask)
    ensures r.Key() == t.Key() && r.retryCount == t.retryCount && r.lastError == t.lastError
    ensures r.completionStatus == Some(status) && r.completionMessage == Some(message)
  {
    t.(completionStatus := Some(status), completionMessage := Some(message))
  }

  /** Every task has at most `maxRetry` retries. */
  predicate AllUnder(ts: seq<InverterTask>, maxRetry: nat) {
    forall i :: 0 <= i < |ts| ==> ts[i].retryCount <= maxRetry
  }

  lemma AllUnderAppend(a: seq<InverterTask>, b: seq<InverterTask>, maxRetry: nat)
    ensures AllUnder(a + b, maxRetry) <==> AllUnder(a, maxRetry) && AllUnder(b, maxRetry)
  {
    if AllUnder(a, maxRetry) && AllUnder(b, maxRetry) {
      forall i | 0 <= i < |a + b| ensures (a + b)[i].retryCount <= maxRetry {
        if i >= |a| {
          assert (a + b)[i] == b[i - |a|];
        }
      }
    }
    if AllUnder(a + b, maxRetry) {
      forall i | 0 <= i < |a| ensures a[i].retryCount <= maxRetry {
        assert (a + b)[i] == a[i];
      }
      forall i | 0 <= i < |b| ensures b[i].retryCount <= maxRetry {
        assert (a + b)[|a| + i] == b[i];
      }
    }
  }

  /** The tasks' retry counts summed (`total_retries` of `get_stats`). */
  function SumRetries(ts: seq<InverterTask>): nat {
    if ts == [] then 0 else SumRetries(ts[..|ts| - 1]) + ts[|ts| - 1].retryCount
  }

  lemma {:induction false} SumRetriesAppend(a: seq<InverterTask>, b: seq<InverterTask>)
    ensures SumRetries(a + b) == SumRetries(a) + SumRetries(b)
    decreases |b|
  {
    if b != [] {
      assert (a + b)[..|a + b| - 1] == a + b[..|b| - 1];
      SumRetriesAppend(a, b[..|b| - 1]);
    } else {
      assert a + b == a;
    }
  }

  /** Under the ceiling, the retries of `n` tasks add up to at most `n * maxRetry`. */
  lemma {:induction false} SumRetriesBound(ts: seq<InverterTask>, maxRetry: nat)
    requires AllUnder(ts, maxRetry)
    ensures SumRetries(ts) <= |ts| * maxRetry
    decreases |ts|
  {
    if ts != [] {
      SumRetriesBound(ts[..|ts| - 1], maxRetry);
    }
  }

  /** What one `get_next_batch` takes from the lanes and what it leaves behind. */
  datatype Split = Split(batch: seq<InverterTask>, primary: seq<InverterTask>, retry: seq<InverterTask>)

  function Min(a: int, b: int): int {
    if a <= b then a else b
  }

  /**
   * `get_next_batch(n)` on lanes `primary` and `retry`: up to `n` tasks,
   * the primary lane first in FIFO order, then the retry lane.
   */
  function NextBatch(primary: seq<InverterTask>, retry: seq<InverterTask>, n: int): (s: Split)
    ensures |s.batch| == Min(if n < 0 then 0 else n, |primary| + |retry|)
  {
    var p := Min(if n < 0 then 0 else n, |primary|);
    var r := Min(if n < 0 then 0 else n - p, |retry|);
    Split(primary[..p] + retry[..r], primary[p..], retry[r..])
  }

  /** The batch and the lanes it leaves, put back together, are the lanes it came from, in order. */
  lemma NextBatchSplits(primary: seq<InverterTask>, retry: seq<InverterTask>, n: int)
    ensures var s := NextBatch(primary, retry, n);
      s.batch + s.primary + s.retry == primary + retry
  {
    var p := Min(if n < 0 then 0 else n, |primary|);
    var r := Min(if n < 0 then 0 else n - p, |retry|);
    if r == 0 {
      assert retry[..r] == [] && retry[r..] == retry;
      assert primary[..p] + primary[p..] == primary;
    } else {
      assert primary[p..] == [] && primary[..p] == primary;
      assert retry[..r] + retry[r..] == retry;
    }
  }

  /**
   * The batch takes from the front of each lane, and touches the retry lane
   * only once the primary lane is empty.
   */
  lemma NextBatchFront(primary: seq<InverterTask>, retry: seq<InverterTask>, n: int)
    ensures var s := NextBatch(primary, retry, n);
      && s.primary == primary[|primary| - |s.primary|..] && s.retry == retry[|retry| - |s.retry|..]
      && (s.retry != retry ==> s.primary == [])
  {
    var p := Min(if n < 0 then 0 else n, |primary|);
    var r := Min(if n < 0 then 0 else n - p, |retry|);
    assert |primary| - |primary[p..]| == p && |retry| - |retry[r..]| == r;
    assert r > 0 ==> p == |primary|;
  }

  /** A batch plus the lanes it leaves are the lanes it came from, as a multiset. */
  lemma NextBatchPermutes(primary: seq<InverterTask>, retry: seq<InverterTask>, n: int)
    ensures var s := NextBatch(primary, retry, n);
      multiset(s.batch) + multiset(s.primary) + multiset(s.retry) == multiset(primary) + multiset(retry)
  {
    var s := NextBatch(primary, retry, n);
    NextBatchSplits(primary, retry, n);
    calc {
      multiset(s.batch) + multiset(s.primary) + multiset(s.retry);
      multiset(s.batch + s.primary + s.retry);
      multiset(primary + retry);
    }
  }

  /** What is left of a lane under the ceiling is under it too. */
  lemma SuffixUnder(ts: seq<InverterTask>, k: nat, maxRetry: nat)
    requires k <= |ts| && AllUnder(ts, maxRetry)
    ensures AllUnder(ts[k..], maxRetry)
  {
  }

  /** `get_stats` */
  datatype Stats = Stats(primaryQueue: nat, retryQueue: nat, completed: nat, failed: nat, totalRetries: nat)

  class SmartTaskQueue {
    /** `config["performance"]["max_retry_queue"]` */
    const maxRetryQueue: nat
    var primary: seq<InverterTask>
    var retry: seq<InverterTask>
    var completed: seq<InverterTask>
    var failed: seq<InverterTask>

    /** No task anywhere in the queue is over the retry ceiling. */
    ghost predicate Valid()
      reads this
    {
      AllUnder(primary, maxRetryQueue) && AllUnder(retry, maxRetryQueue)
      && AllUnder(completed, maxRetryQueue) && AllUnder(failed, maxRetryQueue)
    }

    constructor (maxRetryQueue: nat)
      ensures this.maxRetryQueue == maxRetryQueue
      ensures primary == [] && retry == [] && completed == [] && failed == []
      ensures Valid()
    {
      this.maxRetryQueue := maxRetryQueue;
      primary, retry, completed, failed := [], [], [], [];
    }

    /** `add_tasks`: append to the primary lane in the given order. */
    method AddTasks(tasks: seq<InverterTask>)
      modifies this
      ensures primary == old(primary) + tasks
      ensures retry == old(retry) && completed == old(completed) && failed == old(failed)
      ensures old(Valid()) && AllUnder(tasks, maxRetryQueue) ==> Valid()
    {
      for i := 0 to |tasks|
        invariant primary == old(primary) + tasks[..i]
        invariant retry == old(retry) && completed == old(completed) && failed == old(failed)
      {
        primary := primary + [tasks[i]];
      }
      assert tasks[..|tasks|] == tasks;
    }

    /** `get_next_batch`: pop from the primary lane while room is left, then from the retry lane. */
    method GetNextBatch(batchSize: int) returns (batch: seq<InverterTask>)
      modifies this
      ensures NextBatch(old(primary), old(retry), batchSize) == Split(batch, primary, retry)
      ensures completed == old(completed) && failed == old(failed)
      ensures old(Valid()) ==> Valid()
    {
      batch := TakePrimary(batchSize);
      var fromRetry := TakeRetry(batchSize - |batch|);
      batch := batch + fromRetry;
      if old(Valid()) {
        SuffixUnder(old(primary), |old(primary)| - |primary|, maxRetryQueue);
        SuffixUnder(old(retry), |old(retry)| - |retry|, maxRetryQueue);
      }
    }

    /** The first loop of `get_next_batch`: pop from the primary lane while fewer than `n` are taken. */
    method TakePrimary(n: int) returns (taken: seq<InverterTask>)
      modifies this`primary
      ensures var k := Min(if n < 0 then 0 else n, |old(primary)|);
        taken == old(primary)[..k] && primary == old(primary)[k..]
    {
      taken := [];
      while primary != [] && |taken| < n
        invariant |taken| <= |old(primary)| && (|taken| <= n || taken == [])
        invariant taken == old(primary)[..|taken|] && primary == old(primary)[|taken|..]
        decreases |primary|
      {
        taken := taken + [primary[0]];
        primary := primary[1..];
      }
    }

    /** The second loop of `get_next_batch`: pop from the retry lane while fewer than `n` are taken. */
    method TakeRetry(n: int) returns (taken: seq<InverterTask>)
      modifies this`retry
      ensures var k := Min(if n < 0 then 0 else n, |old(retry)|);
        taken == old(retry)[..k] && retry == old(retry)[k..]
    {
      taken := [];
      while retry != [] && |taken| < n
        invariant |taken| <= |old(retry)| && (|taken| <= n || taken == [])
        invariant taken == old(retry)[..|taken|] && retry == old(retry)[|taken|..]
        decreases |retry|
      {
        taken := taken + [retry[0]];
        retry := retry[1..];
      }
    }

    /** `add_to_retry_queue`: requeue with one more retry, or give the task up. */
    method AddToRetryQueue(task: InverterTask, error: Option<string>) returns (requeued: bool)
      modifies this
      ensures requeued == ShouldRetry(task, maxRetryQueue)
      ensures requeued ==> retry == old(retry) + [MarkRetry(task, error)] && failed == old(failed)
      ensures !requeued ==> failed == old(failed) + [task] && retry == old(retry)
      ensures primary == old(primary) && completed == old(completed)
      ensures old(Valid()) && task.retryCount <= maxRetryQueue ==> Valid()
    {
      if ShouldRetry(task, maxRetryQueue) {
        retry := retry + [MarkRetry(task, error)];
        requeued := true;
      } else {
        failed := failed + [task];
        requeued := false;
      }
    }

    /** `mark_completed`: record the outcome and keep the task. */
    method MarkCompleted(task: InverterTask, status: string, message: string)
      modifies this
      ensures completed == old(completed) + [Completed(task, status, message)]
      ensures primary == old(primary) && retry == old(retry) && failed == old(failed)
      ensures old(Valid()) && task.retryCount <= maxRetryQueue ==> Valid()
    {
      completed := completed + [Completed(task, status, message)];
    }

    /** `has_pending_tasks` */
    function HasPendingTasks(): (pending: bool)
      reads this
      ensures pending <==> primary + retry != []
    {
      |primary| > 0 || |retry| > 0
    }

    /** `get_stats` */
    function GetStats(): (s: Stats)
      reads this
      ensures s.primaryQueue == |primary| && s.retryQueue == |retry|
      ensures s.completed == |completed| && s.failed == |failed|
      ensures s.totalRetries == SumRetries(completed) + SumRetries(failed)
    {
      SumRetriesAppend(completed, failed);
      Stats(|primary|, |retry|, |completed|, |failed|, SumRetries(completed + failed))
    }

    /** With every task under the ceiling, `total_retries` is at most ceiling times finished tasks. */
    lemma TotalRetriesBound()
      requires Valid()
      ensures GetStats().totalRetries <= (|completed| + |failed|) * maxRetryQueue
    {
      SumRetriesAppend(completed, failed);
      assert AllUnder(completed + failed, maxRetryQueue) by {
        forall i | 0 <= i < |completed + failed|
          ensures (completed + failed)[i].retryCount <= maxRetryQueue
        {
          if i >= |completed| {
            assert (completed + failed)[i] == failed[i - |completed|];
          }
        }
      }
      SumRetriesBound(completed + failed, maxRetryQueue);
    }
  }
}
