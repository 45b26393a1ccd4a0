/**
 * The `TaskProcessor` of the all-in-one script `curtailment.py`. It uses
 * copies of the queue and the driver pool that follow the package's rules,
 * so it runs on `TaskQueue.SmartTaskQueue` and `DriverPool.DynamicDriverPool`
 * with the script's settings. Where it parts ways with the package's
 * processor:
 *  - there is no FAULTY skip and no FAILED category: every outcome is
 *    SUCCESS or RETRY;
 *  - an error raised while the driver is out leaves it out;
 *  - the strategy depends on the number of tasks: one task is handled
 *    alone, two or three in one batch, and only more than three go through
 *    the batch loop and the final pass;
 *  - the batch size follows the idle drivers, and the loop stops early
 *    below two retries instead of three.
 *
 * As in the package model, `env(task)` is what the browser does for a task
 * and the tasks of a batch run one after another in batch order.
 */
module CurtailmentProcessor {
  import opened Wrappers
  import opened Strings
  import opened TaskQueue
  import DP = DriverPool
  import Controller
  import CurtailmentControl
  import Inventory
  import TP = TaskProcessor

  /** The pool part of the script's `CONFIG`: `min_pool_size` 1, `max_pool_size` 8, `tasks_per_driver` 4. */
  const Config := DP.PoolConfig(1, 8, 4)
  /** `max_workers` of the script's `CONFIG`: the upper bound of every batch. */
  const MaxWorkers: nat := 8
  /** The batch loop stops once the primary lane is empty and fewer retries than this are left. */
  const EarlyStopRetries: nat := 2
  // The script's `max_retry_queue` is 2, the package's `TaskQueue.MaxRetryQueue`.

  /**
   * The script's pool sizes: one driver for one task, two for two or
   * three, then one per four tasks up to eight. Four tasks get a single
   * driver, fewer than three tasks do.
   */
  lemma ScriptPoolSizes(n: nat)
    ensures DP.OptimalPoolSize(0, Config) == 0 && DP.OptimalPoolSize(1, Config) == 1
    ensures DP.OptimalPoolSize(2, Config) == 2 && DP.OptimalPoolSize(3, Config) == 2
    ensures DP.OptimalPoolSize(4, Config) == 1 && DP.OptimalPoolSize(5, Config) == 2
    ensures 1 <= n ==> 1 <= DP.OptimalPoolSize(n, Config) <= 8
    ensures n >= 29 ==> DP.OptimalPoolSize(n, Config) == 8
    ensures n > 3 ==> DP.LeastCovering(DP.OptimalPoolSize(n, Config), n, Config)
  {
    if n > 3 {
      DP.OptimalIsLeastCovering(n, Config);
    }
  }

  /**
   * The script's `_create_driver_robust` makes one attempt: creation call
   * `k` works iff `creates(k)`, whatever the attempt number.
   */
  function OneShot(creates: nat -> bool): (nat, nat) -> bool {
    (k: nat, attempt: nat) => creates(k)
  }

  lemma OneShotCreation(creates: nat -> bool, k: nat)
    ensures DP.CreationSucceeds(true, OneShot(creates), k) == creates(k)
  {
  }

  /** `min(max_workers, available + 2)`: the size of one batch of the loop. */
  function BatchLimit(maxWorkers: nat, available: nat): (n: nat)
    ensures n <= maxWorkers && n <= available + 2
    ensures n == maxWorkers || n == available + 2
    ensures maxWorkers >= 1 ==> n >= 1
  {
    if maxWorkers <= available + 2 then maxWorkers else available + 2
  }

  /**
   * The classification of `process_single_inverter`: success, or a
   * message with "BỎ QUA", is SUCCESS; anything else is RETRY.
   */
  function Classify(success: bool, message: string): (s: TP.Status)
    ensures s == TP.Success || s == TP.Retry
    ensures s == TP.Success <==> success || Contains(message, Controller.SkipMarker)
  {
    if success || Contains(message, Controller.SkipMarker) then TP.Success else TP.Retry
  }

  /** The package's classification, with FAILED turned into RETRY, is the script's. */
  lemma ClassifyBesidePackage(success: bool, message: string)
    ensures Classify(success, message)
      == (if TP.Classify(success, message) == TP.Failed then TP.Retry else TP.Classify(success, message))
  {
  }

  /** A refusal the package classifies FAILED is retried by the script. */
  lemma RetriesWhatPackageRefuses(current: string)
    requires current == Controller.ConnectGrid || current == Controller.DisconnectGrid
    ensures TP.Classify(false, Controller.OppositeMessage(current)) == TP.Failed
    ensures Classify(false, Controller.OppositeMessage(current)) == TP.Retry
  {
    Controller.OppositeMessageMarked(current);
  }

  /** What the browser does for one attempt of one task. */
  datatype Attempt = Attempt(
    login: bool,                      // `fast_login` succeeds
    page: CurtailmentControl.Page,    // what `perform_grid_action` sees
    raised: Option<string>,           // the login or the action raised this error
    healthy: bool)                    // the driver answers `current_url` when it is given back

  const NoDriverMessage := "Không lấy được driver từ pool"
  const LoginFailedMessage := "Đăng nhập thất bại"
  const ErrorPrefix := "Lỗi xử lý: "

  /** `process_single_inverter` given the browser's behaviour and whether the pool lent a driver. */
  function SingleOutcome(t: InverterTask, a: Attempt, lent: bool): (o: TP.Outcome)
    ensures o.status == TP.Success || o.status == TP.Retry
    ensures !lent ==> o == TP.Outcome(TP.Retry, NoDriverMessage)
    ensures lent && a.raised.Some? ==> o == TP.Outcome(TP.Retry, ErrorPrefix + a.raised.value)
    ensures lent && a.raised == None && !a.login ==> o == TP.Outcome(TP.Retry, LoginFailedMessage)
    ensures lent && a.raised == None && a.login ==>
      var r := CurtailmentControl.GridAction(t.requiredAction, a.page);
      o == TP.Outcome(Classify(r.0, r.1), r.1)
  {
    if !lent then TP.Outcome(TP.Retry, NoDriverMessage)
    else if a.raised.Some? then TP.Outcome(TP.Retry, ErrorPrefix + a.raised.value)
    else if !a.login then TP.Outcome(TP.Retry, LoginFailedMessage)
    else
      var r := CurtailmentControl.GridAction(t.requiredAction, a.page);
      TP.Outcome(Classify(r.0, r.1), r.1)
  }

  /** An inverter already in the requested state is a SUCCESS without a click. */
  lemma AlreadyThereSucceeds(t: InverterTask, a: Attempt, current: string)
    requires a.raised == None && a.login
    requires t.requiredAction == "ON" || t.requiredAction == "OFF"
    requires a.page.before == Some(current) && current !in {"", CurtailmentControl.Source(t.requiredAction)}
    ensures SingleOutcome(t, a, true) == TP.Outcome(TP.Success, CurtailmentControl.SkipMessage(current))
  {
  }

  /** A SUCCESS needs a driver, a login and an action that all go through. */
  lemma SuccessOnlyAfterAction(t: InverterTask, a: Attempt, lent: bool)
    requires SingleOutcome(t, a, lent).status == TP.Success
    ensures lent && a.raised == None && a.login
  {
  }

  /**
   * `_process_single_task` for task `t` with outcome `o`: routed as in a
   * batch, except that a task given up lands in the failed list and is
   * also completed as FAILED.
   */
  function SingleStep(l: TP.Lanes, t: InverterTask, o: TP.Outcome): TP.Lanes {
    var d := TP.Route(t, o, MaxRetryQueue);
    var routed := TP.Step(l, d);
    if d.GivenUp? then routed.(completed := routed.completed + [Completed(t, "FAILED", o.message)]) else routed
  }

  /** A task given up by the single path is recorded twice, as failed and as completed. */
  lemma GivenUpRecordedTwice(l: TP.Lanes, t: InverterTask, o: TP.Outcome)
    requires o.status == TP.Retry && !ShouldRetry(t, MaxRetryQueue)
    ensures SingleStep(l, t, o).failed == l.failed + [t]
    ensures SingleStep(l, t, o).completed == l.completed + [Completed(t, "FAILED", o.message)]
  {
  }

  /** For a task with a retry left, the single path routes exactly as a batch of one does. */
  lemma SingleAsBatch(l: TP.Lanes, t: InverterTask, o: TP.Outcome)
    requires ShouldRetry(t, MaxRetryQueue)
    ensures SingleStep(l, t, o) == TP.Apply(l, TP.Dests([t], [o], MaxRetryQueue))
  {
    var ds := TP.Dests([t], [o], MaxRetryQueue);
    assert ds == [TP.Route(t, o, MaxRetryQueue)];
    assert ds[..0] == [];
  }

  /** Drawing no more tasks than the primary lane holds takes them from its front and leaves the retry lane alone. */
  lemma DrawnFromPrimary(l: TP.Lanes, n: nat)
    requires n <= |l.primary|
    ensures NextBatch(l.primary, l.retry, n).batch == l.primary[..n]
    ensures TP.Drawn(l, n) == l.(primary := l.primary[n..])
  {
    assert l.retry[..0] == [] && l.retry[0..] == l.retry;
    assert l.primary[..n] + [] == l.primary[..n];
  }

  /** Tasks queued behind an empty primary lane are drawn back, all of them and nothing else. */
  lemma QueuedThenDrawn(l: TP.Lanes, tasks: seq<InverterTask>)
    requires l.primary == []
    ensures var l1 := l.(primary := l.primary + tasks);
      NextBatch(l1.primary, l1.retry, |tasks|).batch == tasks && TP.Drawn(l1, |tasks|) == l
  {
    var l1 := l.(primary := l.primary + tasks);
    assert l.primary + tasks == tasks;
    DrawnFromPrimary(l1, |tasks|);
    assert tasks[..|tasks|] == tasks && tasks[|tasks|..] == [];
  }

  /** Drawing from empty lanes draws nothing and changes nothing. */
  lemma NothingToDraw(l: TP.Lanes, n: int)
    requires NextBatch(l.primary, l.retry, n).batch == [] && n >= 1
    ensures TP.Drawn(l, n) == l
  {
    TaskQueue.NextBatchSplits(l.primary, l.retry, n);
  }

  /**
   * Routing tasks added to lanes with an empty primary lane: the lanes gain
   * the tasks, and the number of reported tasks grows by the tasks that
   * were not requeued, so a requeued task is not reported.
   */
  lemma {:induction false} RoutedNewTasks(l: TP.Lanes, tasks: seq<InverterTask>, outs: seq<TP.Outcome>)
    requires l.primary == [] && |outs| == |tasks|
    ensures var l' := TP.Apply(l, TP.Dests(tasks, outs, MaxRetryQueue));
      && l'.primary == []
      && TP.Census(l') == TP.Census(l) + TP.Bag(tasks)
      && |l'.completed| + |l'.failed| + |TP.RequeuedOf(TP.Dests(tasks, outs, MaxRetryQueue))|
         == |l.completed| + |l.failed| + |tasks|
  {
    var l0 := l.(primary := tasks);
    var ds := TP.Dests(tasks, outs, MaxRetryQueue);
    DrawnFromPrimary(l0, |tasks|);
    assert tasks[..|tasks|] == tasks && tasks[|tasks|..] == [];
    assert TP.Drawn(l0, |tasks|) == l;
    TP.BatchKeepsCensus(l0, |tasks|, tasks, outs);
    TP.CensusAdd(l, tasks);
    assert l.primary + tasks == tasks;
    TP.ApplyRoutes(l, ds);
    TP.TallyCountsEach(ds);
  }

  /**
   * The routing of `_process_single_task` for one outcome: SUCCESS is
   * completed and counts 1; RETRY goes through `add_to_retry_queue`, and a
   * task it gives up is also completed as FAILED.
   */
  method RouteSingle(queue: SmartTaskQueue, task: InverterTask, o: TP.Outcome) returns (completedCount: nat)
    requires queue.maxRetryQueue == MaxRetryQueue && (o.status == TP.Success || o.status == TP.Retry)
    modifies queue
    ensures TP.LanesOf(queue) == SingleStep(old(TP.LanesOf(queue)), task, o)
    ensures completedCount == (if o.status == TP.Success then 1 else 0)
    ensures old(queue.Valid()) && task.retryCount <= MaxRetryQueue ==> queue.Valid()
  {
    completedCount := 0;
    if o.status == TP.Success || o.status == TP.Skipped {
      queue.MarkCompleted(task, o.status.Name(), o.message);
      completedCount := 1;
    } else {
      // RETRY: the branch for any other status is never taken, as `Classify` gives only SUCCESS or RETRY.
      var requeued := queue.AddToRetryQueue(task, Some(o.message));
      if !requeued {
        queue.MarkCompleted(task, "FAILED", o.message);
      }
    }
  }

  /** The processor of the script, with its queue, its pool and the browser's behaviour. */
  class ScriptProcessor {
    const queue: SmartTaskQueue
    const pool: DP.DynamicDriverPool
    /** The browser's behaviour for each attempt. */
    const env: InverterTask -> Attempt

    /** The settings the processor was built with: the script's `CONFIG` and a Chrome driver. */
    predicate Wired() {
      queue.maxRetryQueue == MaxRetryQueue && pool.config == Config && pool.browserSupported
    }

    constructor (creates: nat -> bool, env: InverterTask -> Attempt)
      ensures this.env == env && Wired()
      ensures fresh(queue) && fresh(pool)
      ensures queue.primary == [] && queue.retry == [] && queue.completed == [] && queue.failed == [] && queue.Valid()
      ensures pool.works == OneShot(creates)
      ensures !pool.isInitialized && pool.calls == 0 && pool.returned == [] && pool.Valid()
    {
      this.env := env;
      queue := new SmartTaskQueue(MaxRetryQueue);
      pool := new DP.DynamicDriverPool(Config, true, OneShot(creates));
    }

    /** Whether `get_driver` would lend a driver now. */
    predicate Lends()
      reads pool
    {
      pool.isInitialized && pool.semaphore > 0 && pool.available != []
    }

    /** One of the outcomes `process_single_inverter` can give for `t`. */
    predicate Possible(t: InverterTask, o: TP.Outcome) {
      o == SingleOutcome(t, env(t), true) || o == SingleOutcome(t, env(t), false)
    }

    /** Each outcome is one `process_single_inverter` can give for the task beside it. */
    predicate AllPossible(ts: seq<InverterTask>, os: seq<TP.Outcome>)
      requires |ts| == |os|
    {
      forall i :: 0 <= i < |ts| ==> Possible(ts[i], os[i])
    }

    /** One more task and its outcome, both taken from the front of longer sequences. */
    lemma AllPossibleExtend(ts: seq<InverterTask>, os: seq<TP.Outcome>, o: TP.Outcome)
      requires |os| < |ts| && AllPossible(ts[..|os|], os) && Possible(ts[|os|], o)
      ensures AllPossible(ts[..|os| + 1], os + [o])
    {
      var n := |os|;
      forall i | 0 <= i <= n
        ensures Possible(ts[..n + 1][i], (os + [o])[i])
      {
        if i < n {
          assert ts[..n][i] == ts[i] && os[i] == (os + [o])[i];
        }
      }
    }

    /**
     * `process_single_inverter`: take a driver or give up for now; log in
     * and act; give the driver back after a failed login and after the
     * action, but not when an error escapes.
     */
    method ProcessSingleInverter(task: InverterTask) returns (o: TP.Outcome)
      modifies pool
      ensures o == SingleOutcome(task, env(task), old(Lends()))
      ensures !old(Lends()) ==> unchanged(pool)
      ensures old(Lends()) && env(task).raised == None ==> pool.returned == old(pool.returned) + [old(pool.available)[0]]
      ensures old(Lends()) && env(task).raised.Some? ==>
        pool.returned == old(pool.returned) && old(pool.available)[0] in pool.inUse
      ensures old(pool.Valid()) ==> pool.Valid()
      ensures pool.isInitialized == old(pool.isInitialized)
    {
      var driver := pool.GetDriver();
      if driver == None {
        return TP.Outcome(TP.Retry, NoDriverMessage);
      }
      var a := env(task);
      if a.raised.Some? {
        return TP.Outcome(TP.Retry, ErrorPrefix + a.raised.value);
      }
      if !a.login {
        pool.ReturnDriver(driver, a.healthy, true);
        return TP.Outcome(TP.Retry, LoginFailedMessage);
      }
      var success, message := CurtailmentControl.PerformGridAction(task.requiredAction, a.page);
      pool.ReturnDriver(driver, a.healthy, true);
      o := TP.Outcome(Classify(success, message), message);
    }

    /**
     * `_process_single_task`: draw one task, run it and route its outcome;
     * a task that cannot be requeued is also completed as FAILED. The
     * result is 1 for a completed SUCCESS and 0 for an empty draw; on the
     * other paths the script returns None, written here as 0 (its only
     * caller ignores the value).
     */
    method ProcessSingleTask() returns (completedCount: nat, ghost batch: seq<InverterTask>, ghost outs: seq<TP.Outcome>)
      requires Wired()
      modifies queue, pool
      ensures batch == NextBatch(old(queue.primary), old(queue.retry), 1).batch && |outs| == |batch|
      ensures batch == [] ==> completedCount == 0 && TP.LanesOf(queue) == old(TP.LanesOf(queue)) && unchanged(pool)
      ensures batch != [] ==>
        && TP.LanesOf(queue) == SingleStep(TP.Drawn(old(TP.LanesOf(queue)), 1), batch[0], outs[0])
        && completedCount == (if outs[0].status == TP.Success then 1 else 0)
      ensures AllPossible(batch, outs)
      ensures old(queue.Valid()) ==> queue.Valid()
    {
      ghost var l0 := TP.LanesOf(queue);
      var tasks := queue.GetNextBatch(1);
      batch := tasks;
      if |tasks| == 0 {
        NothingToDraw(l0, 1);
        return 0, batch, [];
      }
      ghost var l1 := TP.LanesOf(queue);
      var task := tasks[0];
      if TP.LanesUnder(l0) {
        TP.BatchUnder(l0.primary, l0.retry, 1);
      }
      var o := ProcessSingleInverter(task);
      outs := [o];
      assert |tasks| == 1 && tasks[..0] == [] && outs[..0] == [];
      assert Possible(task, o);
      completedCount := RouteSingle(queue, task, o);
    }

    /**
     * `_process_few_tasks`: draw `total` tasks as one batch and route each
     * outcome as a batch does. Requeued tasks are not run again. The result
     * is the number of SUCCESS outcomes.
     */
    method ProcessFewTasks(total: nat) returns (completedCount: nat, ghost batch: seq<InverterTask>, ghost outs: seq<TP.Outcome>)
      requires Wired()
      modifies queue, pool
      ensures batch == NextBatch(old(queue.primary), old(queue.retry), total).batch && |outs| == |batch|
      ensures TP.LanesOf(queue)
        == TP.Apply(TP.Drawn(old(TP.LanesOf(queue)), total), TP.Dests(batch, outs, MaxRetryQueue))
      ensures completedCount == TP.Tally(TP.Dests(batch, outs, MaxRetryQueue)).completed
      ensures AllPossible(batch, outs)
      ensures old(queue.Valid()) ==> queue.Valid()
    {
      ghost var l0 := TP.LanesOf(queue);
      var tasks := queue.GetNextBatch(total);
      batch := tasks;
      if |tasks| == 0 {
        return 0, batch, [];
      }
      var stats;
      stats, outs := RunTasks(tasks);
      completedCount := stats.completed;
      if TP.LanesUnder(l0) {
        TP.BatchUnder(l0.primary, l0.retry, total);
        TP.DrawnUnder(l0, total);
        TP.RoutedLanesUnder(TP.Drawn(l0, total), batch, outs);
      }
    }

    /** One task of a batch: run it, then route its outcome and bump one counter. */
    method HandleTask(task: InverterTask, stats: TP.BatchStats) returns (o: TP.Outcome, next: TP.BatchStats)
      requires Wired()
      modifies queue, pool
      ensures Possible(task, o)
      ensures TP.LanesOf(queue) == TP.Step(old(TP.LanesOf(queue)), TP.Route(task, o, MaxRetryQueue))
      ensures next == TP.Count(stats, TP.Route(task, o, MaxRetryQueue))
    {
      o := ProcessSingleInverter(task);
      next := TP.RouteOutcome(queue, task, o, stats);
    }

    /** The worker loop of a batch: every task of the batch, in batch order. */
    method RunTasks(tasks: seq<InverterTask>) returns (stats: TP.BatchStats, ghost outs: seq<TP.Outcome>)
      requires Wired()
      modifies queue, pool
      ensures |outs| == |tasks|
      ensures TP.LanesOf(queue) == TP.Apply(old(TP.LanesOf(queue)), TP.Dests(tasks, outs, MaxRetryQueue))
      ensures stats == TP.Tally(TP.Dests(tasks, outs, MaxRetryQueue))
      ensures AllPossible(tasks, outs)
    {
      stats := TP.BatchStats(0, 0, 0);
      outs := [];
      ghost var start := TP.LanesOf(queue);
      ghost var ds: seq<TP.Dest> := [];
      for i := 0 to |tasks|
        invariant |outs| == i && ds == TP.Dests(tasks[..i], outs, MaxRetryQueue)
        invariant TP.LanesOf(queue) == TP.Apply(start, ds)
        invariant stats == TP.Tally(ds)
        invariant AllPossible(tasks[..i], outs)
      {
        var o;
        o, stats := HandleTask(tasks[i], stats);
        ghost var d := TP.Route(tasks[i], o, MaxRetryQueue);
        TP.DestsSnoc(ds, d);
        TP.ApplySnoc(start, ds, d);
        TP.DestsExtend(tasks, outs, o, MaxRetryQueue);
        AllPossibleExtend(tasks, outs, o);
        ds := ds + [d];
        outs := outs + [o];
      }
      assert tasks[..|tasks|] == tasks;
    }

    /**
     * `_process_batch_with_limits`: draw up to `min(max_workers, available + 2)`
     * tasks, run each and route its outcome, counting completed, retried
     * and failed.
     */
    method ProcessBatchWithLimits() returns (stats: TP.BatchStats, ghost n: nat, ghost batch: seq<InverterTask>,
                                             ghost outs: seq<TP.Outcome>)
      requires Wired()
      modifies queue, pool
      ensures n == BatchLimit(MaxWorkers, |old(pool.available)|) && n >= 1
      ensures batch == NextBatch(old(queue.primary), old(queue.retry), n).batch && |outs| == |batch|
      ensures TP.LanesOf(queue) == TP.Apply(TP.Drawn(old(TP.LanesOf(queue)), n), TP.Dests(batch, outs, MaxRetryQueue))
      ensures stats == TP.Tally(TP.Dests(batch, outs, MaxRetryQueue))
      ensures AllPossible(batch, outs)
      ensures old(queue.Valid()) ==> queue.Valid()
    {
      var maxConcurrent := BatchLimit(MaxWorkers, |pool.available|);
      n := maxConcurrent;
      ghost var l0 := TP.LanesOf(queue);
      var tasks := queue.GetNextBatch(maxConcurrent);
      batch := tasks;
      if |tasks| == 0 {
        return TP.BatchStats(0, 0, 0), n, batch, [];
      }
      stats, outs := RunTasks(tasks);
      if TP.LanesUnder(l0) {
        TP.BatchUnder(l0.primary, l0.retry, n);
        TP.DrawnUnder(l0, n);
        TP.RoutedLanesUnder(TP.Drawn(l0, n), batch, outs);
      }
    }

    /**
     * The loop of `_process_many_tasks`: batches while tasks are pending,
     * stopping early once the primary lane is empty and fewer than two
     * retries are left.
     */
    method RunBatches()
      requires Wired()
      modifies queue, pool
      ensures queue.primary == [] && |queue.retry| < EarlyStopRetries
      ensures TP.Census(TP.LanesOf(queue)) == TP.Census(old(TP.LanesOf(queue)))
      ensures old(queue.Valid()) ==> queue.Valid()
    {
      while queue.HasPendingTasks()
        invariant TP.Census(TP.LanesOf(queue)) == TP.Census(old(TP.LanesOf(queue)))
        invariant old(queue.Valid()) ==> queue.Valid()
        decreases TP.Load(queue.primary + queue.retry, MaxRetryQueue)
      {
        ghost var l0 := TP.LanesOf(queue);
        var batchStats, n, batch, outs := ProcessBatchWithLimits();
        TP.BatchKeepsCensus(l0, n, batch, outs);
        TP.BatchLightens(l0, n, batch, outs);
        var queueStats := queue.GetStats();
        if queueStats.primaryQueue == 0 && queueStats.retryQueue < EarlyStopRetries {
          break;
        }
      }
    }

    /** One task of `_process_final_retry`: run it, then complete it either way and bump one counter. */
    method HandleFinal(task: InverterTask, stats: TP.BatchStats) returns (o: TP.Outcome, next: TP.BatchStats)
      requires Wired()
      modifies queue, pool
      ensures Possible(task, o)
      ensures TP.LanesOf(queue) == TP.Finish(old(TP.LanesOf(queue)), [TP.FinalRoute(task, o)])
      ensures next == TP.FinalCount(stats, o)
    {
      o := ProcessSingleInverter(task);
      next := TP.FinishOutcome(queue, task, o, stats);
    }

    /**
     * `_process_final_retry`: when retries are left, take as many tasks as
     * the retry lane holds and complete each, as SUCCESS or as FAILED with
     * the "Final retry failed: " prefix. Nothing is requeued.
     */
    method ProcessFinalRetry() returns (stats: TP.BatchStats, ghost batch: seq<InverterTask>, ghost outs: seq<TP.Outcome>)
      requires Wired()
      modifies queue, pool
      ensures batch == NextBatch(old(queue.primary), old(queue.retry), |old(queue.retry)|).batch && |outs| == |batch|
      ensures TP.LanesOf(queue)
        == TP.Finish(TP.Drawn(old(TP.LanesOf(queue)), |old(queue.retry)|), TP.FinalRoutes(batch, outs))
      ensures stats == TP.BatchStats(TP.CountGood(outs), 0, |batch| - TP.CountGood(outs))
      ensures old(queue.retry) == [] ==> batch == [] && unchanged(pool)
      ensures AllPossible(batch, outs)
      ensures old(queue.Valid()) ==> queue.Valid()
    {
      ghost var l0 := TP.LanesOf(queue);
      if |queue.retry| == 0 {
        TP.NothingDrawn(l0);
        return TP.BatchStats(0, 0, 0), [], [];
      }
      var tasks := queue.GetNextBatch(|queue.retry|);
      assert TP.LanesOf(queue) == TP.Drawn(l0, |l0.retry|);
      batch := tasks;
      stats, outs := RunFinal(tasks);
      if TP.LanesUnder(l0) {
        TP.BatchUnder(l0.primary, l0.retry, |l0.retry|);
        TP.DrawnUnder(l0, |l0.retry|);
        TP.FinishUnder(TP.Drawn(l0, |l0.retry|), batch, outs);
      }
    }

    /** The loop of `_process_final_retry`: every drained task, in order. */
    method RunFinal(tasks: seq<InverterTask>) returns (stats: TP.BatchStats, ghost outs: seq<TP.Outcome>)
      requires Wired()
      modifies queue, pool
      ensures |outs| == |tasks|
      ensures TP.LanesOf(queue) == TP.Finish(old(TP.LanesOf(queue)), TP.FinalRoutes(tasks, outs))
      ensures stats == TP.BatchStats(TP.CountGood(outs), 0, |tasks| - TP.CountGood(outs))
      ensures AllPossible(tasks, outs)
    {
      stats := TP.BatchStats(0, 0, 0);
      outs := [];
      ghost var start := TP.LanesOf(queue);
      for i := 0 to |tasks|
        invariant |outs| == i
        invariant TP.LanesOf(queue) == TP.Finish(start, TP.FinalRoutes(tasks[..i], outs))
        invariant stats == TP.FinalTally(outs)
        invariant AllPossible(tasks[..i], outs)
      {
        var o;
        o, stats := HandleFinal(tasks[i], stats);
        TP.FinalStep(start, tasks, outs, o);
        AllPossibleExtend(tasks, outs, o);
        outs := outs + [o];
      }
      assert tasks[..|tasks|] == tasks;
      TP.FinalTallyCounts(outs);
    }

    /**
     * `_process_many_tasks`: the batch loop, then the final pass over the
     * retries left. Every task in the lanes ends in a result list.
     */
    method ProcessManyTasks()
      requires Wired()
      modifies queue, pool
      ensures queue.primary == [] && queue.retry == []
      ensures TP.Bag(queue.completed + queue.failed) == TP.Census(old(TP.LanesOf(queue)))
      ensures old(queue.Valid()) ==> queue.Valid()
    {
      RunBatches();
      ghost var l1 := TP.LanesOf(queue);
      var finalStats, finalBatch, finalOuts := ProcessFinalRetry();
      TP.FinalShape(l1, finalBatch, finalOuts, TP.LanesOf(queue));
      TP.FinalRoutesBag(finalBatch, finalOuts);
      TP.FinalCensus(l1, TP.FinalRoutes(finalBatch, finalOuts), TP.LanesOf(queue));
    }

    /**
     * The part of `run_parallel_optimized` between a successful pool start
     * and the report: queue the new tasks and pick the strategy by their
     * number. With more than three, every task ends in a result list.
     * With fewer, and nothing left in the primary lane by an earlier run,
     * each task is routed once, so a task sent to the retry lane stays
     * there, outside the result lists.
     */
    method RunStrategy(tasks: seq<InverterTask>) returns (ghost outs: seq<TP.Outcome>)
      requires Wired() && tasks != [] && AllUnder(tasks, 0)
      modifies queue, pool
      ensures |tasks| > 3 ==>
        && queue.primary == [] && queue.retry == []
        && TP.Bag(queue.completed + queue.failed) == TP.Census(old(TP.LanesOf(queue))) + TP.Bag(tasks)
      ensures |tasks| <= 3 && old(queue.primary) == [] ==>
        && |outs| == |tasks| && AllPossible(tasks, outs)
        && TP.LanesOf(queue) == TP.Apply(old(TP.LanesOf(queue)), TP.Dests(tasks, outs, MaxRetryQueue))
      ensures old(queue.Valid()) ==> queue.Valid()
    {
      ghost var l0 := TP.LanesOf(queue);
      assert AllUnder(tasks, MaxRetryQueue);
      queue.AddTasks(tasks);
      TP.CensusAdd(l0, tasks);
      if |tasks| == 1 {
        outs := RunSingle(l0, tasks);
      } else if |tasks| <= 3 {
        outs := RunFew(l0, tasks);
      } else {
        ProcessManyTasks();
        outs := [];
      }
    }

    /** The one-task strategy of `run_parallel_optimized`, once the task is queued on lanes `l0`. */
    method RunSingle(ghost l0: TP.Lanes, tasks: seq<InverterTask>) returns (ghost outs: seq<TP.Outcome>)
      requires Wired() && |tasks| == 1 && AllUnder(tasks, 0)
      requires TP.LanesOf(queue) == l0.(primary := l0.primary + tasks)
      modifies queue, pool
      ensures l0.primary == [] ==>
        |outs| == 1 && AllPossible(tasks, outs) && TP.LanesOf(queue) == TP.Apply(l0, TP.Dests(tasks, outs, MaxRetryQueue))
      ensures old(queue.Valid()) ==> queue.Valid()
    {
      var completedCount;
      ghost var batch;
      completedCount, batch, outs := ProcessSingleTask();
      if l0.primary == [] {
        QueuedThenDrawn(l0, tasks);
        assert tasks[0].retryCount <= 0;
        SingleAsBatch(l0, tasks[0], outs[0]);
      }
    }

    /** The strategy for two or three tasks, once they are queued on lanes `l0`. */
    method RunFew(ghost l0: TP.Lanes, tasks: seq<InverterTask>) returns (ghost outs: seq<TP.Outcome>)
      requires Wired() && 2 <= |tasks| <= 3
      requires TP.LanesOf(queue) == l0.(primary := l0.primary + tasks)
      modifies queue, pool
      ensures l0.primary == [] ==>
        |outs| == |tasks| && AllPossible(tasks, outs)
        && TP.LanesOf(queue) == TP.Apply(l0, TP.Dests(tasks, outs, MaxRetryQueue))
      ensures old(queue.Valid()) ==> queue.Valid()
    {
      var completedCount;
      ghost var batch;
      completedCount, batch, outs := ProcessFewTasks(|tasks|);
      if l0.primary == [] {
        QueuedThenDrawn(l0, tasks);
      }
    }

    /** Whether `initialize_pool` succeeds for `n` tasks. */
    ghost predicate PoolStarts(n: nat)
      reads pool
    {
      pool.config.tasksPerDriver > 0 &&
      (pool.isInitialized
       || DP.CreatedIds(pool.browserSupported, pool.works, pool.calls, DP.OptimalPoolSize(n, pool.config)) != [])
    }

    /**
     * `run_parallel_optimized`: prepare the tasks; with none, or with no
     * driver, report nothing and leave the pool as it is; otherwise run the
     * strategy, report every task in the result lists and clean up the pool.
     */
    method RunParallelOptimized(urls: Inventory.SystemUrls, requests: Inventory.Requests,
                                quitOk: DP.DriverId -> bool) returns (results: seq<TP.Row>)
      requires Wired()
      modifies queue, pool
      ensures var tasks := Inventory.PreparedTasks(urls, requests);
        tasks == [] ==> results == [] && unchanged(queue) && unchanged(pool)
      ensures var tasks := Inventory.PreparedTasks(urls, requests);
        tasks != [] && !old(PoolStarts(|tasks|)) ==> results == [] && unchanged(queue) && !pool.isInitialized
      ensures var tasks := Inventory.PreparedTasks(urls, requests);
        tasks != [] && old(PoolStarts(|tasks|)) ==>
          && results == TP.FinalResults(queue.completed, queue.failed) && !pool.isInitialized
          && (|tasks| > 3 ==>
                && queue.primary == [] && queue.retry == []
                && TP.Bag(queue.completed + queue.failed) == TP.Census(old(TP.LanesOf(queue))) + TP.Bag(tasks))
          && (|tasks| <= 3 && old(queue.primary) == [] ==>
                queue.primary == [] && TP.Census(TP.LanesOf(queue)) == TP.Census(old(TP.LanesOf(queue))) + TP.Bag(tasks))
      ensures old(queue.Valid()) ==> queue.Valid()
    {
      var tasks, totalInverters := Inventory.PrepareTasks(urls, requests);
      if |tasks| == 0 {
        return [];
      }
      var poolSuccess := pool.InitializePool(|tasks|);
      if !poolSuccess {
        return [];
      }
      FreshTasks(urls, requests);
      ghost var l0 := TP.LanesOf(queue);
      var outs := RunStrategy(tasks);
      if |tasks| <= 3 && l0.primary == [] {
        RoutedNewTasks(l0, tasks, outs);
      }
      results := TP.FinalResults(queue.completed, queue.failed);
      pool.Cleanup(quitOk);
    }
  }

  /** Prepared tasks are new: none has been retried. */
  lemma FreshTasks(urls: Inventory.SystemUrls, requests: Inventory.Requests)
    ensures AllUnder(Inventory.PreparedTasks(urls, requests), 0)
  {
    var tasks := Inventory.PreparedTasks(urls, requests);
    Inventory.PreparedTasksRequested(urls, requests);
    forall i | 0 <= i < |tasks| ensures tasks[i].retryCount <= 0 {
      assert tasks[i] in tasks;
    }
  }
}
