/**
 * The package's `TaskProcessor`: it prepares the tasks, sizes the driver
 * pool, runs batches of `max_workers` tasks until the lanes are empty or
 * only a few retries are left, gives the remaining retries one last pass,
 * and reports one row per task.
 *
 * The browser work of one task (login, the grid page, an exception raised
 * anywhere in it) is an input: `env(task)` is what the browser does for
 * that task. A requeued task has a higher retry count, so each of its
 * attempts is looked up separately. The thread pool runs the tasks of a
 * batch one after another in batch order.
 */
module TaskProcessor {
  import opened Wrappers
  import opened Strings
  import opened TaskQueue
  import DP = DriverPool
  import Controller
  import Inventory

  /** `max_workers` of the package settings: the size of every batch. */
  const MaxWorkers: nat := 8
  /** The main loop stops once the primary lane is empty and fewer retries than this are left. */
  const EarlyStopRetries: nat := 3

  datatype Status = Success | Skipped | Retry | Failed {
    function Name(): string {
      match this
      case Success => "SUCCESS"
      case Skipped => "SKIPPED"
      case Retry => "RETRY"
      case Failed => "FAILED"
    }
  }

  /**
   * The classification of a controller result in `process_single_inverter`:
   * success, or a skip, is SUCCESS; a refusal ("LỖI" and "ngược lại") is
   * final; anything else is worth a retry.
   */
  function Classify(success: bool, message: string): (s: Status)
    ensures s != Skipped
    ensures s == Success <==> success || Contains(message, Controller.SkipMarker)
    ensures s == Failed <==>
      !success && !Contains(message, Controller.SkipMarker)
      && Contains(message, Controller.ErrorMarker) && Contains(message, Controller.OppositeMarker)
  {
    if success then Success
    else if Contains(message, Controller.SkipMarker) then Success
    else if Contains(message, Controller.ErrorMarker) && Contains(message, Controller.OppositeMarker) then Failed
    else Retry
  }

  /** What the browser does for one attempt of one task. */
  datatype Attempt = Attempt(
    login: bool,               // `fast_login` succeeds
    page: Controller.Page,     // what `perform_grid_action` sees
    raised: Option<string>,    // the login or the action raised this error
    healthy: bool,             // the driver answers the pool's health probe afterwards
    resetOk: bool)             // and its reset works

  /** An ON request for an inverter marked FAULTY is skipped before any driver is taken. */
  predicate FaultyOn(t: InverterTask) {
    t.requiredAction == "ON" && t.invStatus == "FAULTY"
  }

  const FaultyMessage := "INV lỗi không thể bật"
  const NoDriverMessage := "Không thể lấy driver từ pool"
  const LoginFailedMessage := "Đăng nhập thất bại"
  const UnexpectedPrefix := "Lỗi không xác định: "

  /** The status and message of one `process_single_inverter` call. */
  datatype Outcome = Outcome(status: Status, message: string)

  /**
   * `process_single_inverter` given the browser's behaviour and whether the
   * pool lent a driver.
   */
  function SingleOutcome(t: InverterTask, a: Attempt, lent: bool): (o: Outcome)
    ensures o.status == Skipped <==> FaultyOn(t)
    ensures FaultyOn(t) ==> o.message == FaultyMessage
    ensures !FaultyOn(t) && !lent ==> o == Outcome(Retry, NoDriverMessage)
    ensures !FaultyOn(t) && lent && a.raised.Some? ==> o == Outcome(Retry, UnexpectedPrefix + a.raised.value)
    ensures !FaultyOn(t) && lent && a.raised == None && !a.login ==> o == Outcome(Retry, LoginFailedMessage)
    ensures !FaultyOn(t) && lent && a.raised == None && a.login ==>
      var r := Controller.PerformGridAction(t.requiredAction, a.page);
      o == Outcome(Classify(r.0, r.1), r.1)
  {
    if FaultyOn(t) then Outcome(Skipped, FaultyMessage)
    else if !lent then Outcome(Retry, NoDriverMessage)
    else if a.raised.Some? then Outcome(Retry, UnexpectedPrefix + a.raised.value)
    else if !a.login then Outcome(Retry, LoginFailedMessage)
    else
      var r := Controller.PerformGridAction(t.requiredAction, a.page);
      Outcome(Classify(r.0, r.1), r.1)
  }

  /**
   * A request for the state opposite to the one the inverter is in is
   * refused by the controller and classified FAILED: such a task is never retried.
   */
  lemma OppositeStateFails(t: InverterTask, a: Attempt, current: string)
    requires !FaultyOn(t) && a.raised == None && a.login
    requires a.page.before == Some(current) && Controller.Opposite(t.requiredAction, current)
    ensures SingleOutcome(t, a, true).status == Failed
  {
    Controller.OppositeMessageMarked(current);
  }

  /** A request for the state the inverter is already in is a SUCCESS without a click. */
  lemma AlreadyThereSucceeds(t: InverterTask, a: Attempt, current: string)
    requires !FaultyOn(t) && a.raised == None && a.login
    requires a.page.before == Some(current) && Controller.AlreadyThere(t.requiredAction, current)
    ensures SingleOutcome(t, a, true) == Outcome(Success, Controller.SkipMessage(current))
  {
  }

  /** Only a login and an action that both go through can end FAILED or SUCCESS (bar FAULTY skips). */
  lemma FinalOnlyAfterAction(t: InverterTask, a: Attempt, lent: bool)
    requires SingleOutcome(t, a, lent).status in {Success, Failed}
    ensures lent && a.raised == None && a.login && !FaultyOn(t)
  {
  }

  /** Where `_process_batch` sends one task with its outcome. */
  datatype Dest =
    | Done(task: InverterTask)        // SUCCESS or SKIPPED: completed, counted completed
    | Refused(task: InverterTask)     // FAILED: completed, counted failed
    | Requeued(task: InverterTask)    // RETRY under the ceiling: retry lane, counted retried
    | GivenUp(task: InverterTask)     // RETRY at the ceiling: failed list, counted failed

  function Route(t: InverterTask, o: Outcome, maxRetry: nat): (d: Dest)
    ensures d.task.Key() == t.Key()
    ensures d.Done? <==> o.status in {Success, Skipped}
    ensures d.Refused? <==> o.status == Failed
    ensures d.Requeued? <==> o.status == Retry && ShouldRetry(t, maxRetry)
    ensures d.GivenUp? <==> o.status == Retry && !ShouldRetry(t, maxRetry)
    ensures d.Requeued? ==> d.task.retryCount == t.retryCount + 1 && d.task.lastError == Some(o.message)
    ensures !d.Requeued? ==> d.task.retryCount == t.retryCount
  {
    match o.status
    case Success => Done(Completed(t, o.status.Name(), o.message))
    case Skipped => Done(Completed(t, o.status.Name(), o.message))
    case Failed => Refused(Completed(t, o.status.Name(), o.message))
    case Retry => if ShouldRetry(t, maxRetry) then Requeued(MarkRetry(t, Some(o.message))) else GivenUp(t)
  }

  function Dests(batch: seq<InverterTask>, outs: seq<Outcome>, maxRetry: nat): (ds: seq<Dest>)
    requires |outs| == |batch|
    ensures |ds| == |batch|
  {
    seq(|batch|, i requires 0 <= i < |batch| => Route(batch[i], outs[i], maxRetry))
  }

  /** What one destination adds to `completed_tasks`, to the retry lane and to `failed_tasks`. */
  function CompletedPart(d: Dest): seq<InverterTask> {
    if d.Done? || d.Refused? then [d.task] else []
  }

  function RequeuedPart(d: Dest): seq<InverterTask> {
    if d.Requeued? then [d.task] else []
  }

  function GivenUpPart(d: Dest): seq<InverterTask> {
    if d.GivenUp? then [d.task] else []
  }

  /** The tasks that end in `completed_tasks`, in order. */
  function CompletedOf(ds: seq<Dest>): seq<InverterTask> {
    if ds == [] then [] else CompletedOf(ds[..|ds| - 1]) + CompletedPart(ds[|ds| - 1])
  }

  /** The tasks that go back to the retry lane, in order. */
  function RequeuedOf(ds: seq<Dest>): seq<InverterTask> {
    if ds == [] then [] else RequeuedOf(ds[..|ds| - 1]) + RequeuedPart(ds[|ds| - 1])
  }

  /** The tasks that end in `failed_tasks`, in order. */
  function GivenUpOf(ds: seq<Dest>): seq<InverterTask> {
    if ds == [] then [] else GivenUpOf(ds[..|ds| - 1]) + GivenUpPart(ds[|ds| - 1])
  }

  /** The two lanes and the two result lists of a `SmartTaskQueue`, as one value. */
  datatype Lanes = Lanes(primary: seq<InverterTask>, retry: seq<InverterTask>,
                         completed: seq<InverterTask>, failed: seq<InverterTask>)

  function LanesOf(q: SmartTaskQueue): Lanes
    reads q
  {
    Lanes(q.primary, q.retry, q.completed, q.failed)
  }

  /** What routing one task does to the queue. */
  function Step(l: Lanes, d: Dest): Lanes {
    l.(retry := l.retry + RequeuedPart(d), completed := l.completed + CompletedPart(d), failed := l.failed + GivenUpPart(d))
  }

  /** Routing several tasks, one after the other. */
  function Apply(l: Lanes, ds: seq<Dest>): Lanes {
    if ds == [] then l else Step(Apply(l, ds[..|ds| - 1]), ds[|ds| - 1])
  }

  lemma ApplySnoc(l: Lanes, ds: seq<Dest>, d: Dest)
    ensures Apply(l, ds + [d]) == Step(Apply(l, ds), d)
  {
    assert (ds + [d])[..|ds|] == ds;
  }

  /** Routing a batch leaves the primary lane alone and appends each list's share, in batch order. */
  lemma {:induction false} ApplyRoutes(l: Lanes, ds: seq<Dest>)
    ensures Apply(l, ds)
      == Lanes(l.primary, l.retry + RequeuedOf(ds), l.completed + CompletedOf(ds), l.failed + GivenUpOf(ds))
  {
    if ds != [] {
      var pre, d := ds[..|ds| - 1], ds[|ds| - 1];
      ApplyRoutes(l, pre);
      assert l.retry + RequeuedOf(pre) + RequeuedPart(d) == l.retry + RequeuedOf(ds);
      assert l.completed + CompletedOf(pre) + CompletedPart(d) == l.completed + CompletedOf(ds);
      assert l.failed + GivenUpOf(pre) + GivenUpPart(d) == l.failed + GivenUpOf(ds);
    }
  }

  /** `batch_stats` */
  datatype BatchStats = BatchStats(completed: nat, retried: nat, failed: nat)

  /** The counter one destination bumps. */
  function Count(s: BatchStats, d: Dest): BatchStats {
    match d
    case Done(_) => s.(completed := s.completed + 1)
    case Requeued(_) => s.(retried := s.retried + 1)
    case Refused(_) => s.(failed := s.failed + 1)
    case GivenUp(_) => s.(failed := s.failed + 1)
  }

  function Tally(ds: seq<Dest>): BatchStats {
    if ds == [] then BatchStats(0, 0, 0) else Count(Tally(ds[..|ds| - 1]), ds[|ds| - 1])
  }

  /** Every batch task is counted exactly once: completed + retried + failed is the batch size. */
  lemma {:induction false} TallyCountsEach(ds: seq<Dest>)
    ensures Tally(ds).completed + Tally(ds).retried + Tally(ds).failed == |ds|
    ensures Tally(ds).retried == |RequeuedOf(ds)|
    ensures Tally(ds).completed + Tally(ds).failed == |CompletedOf(ds)| + |GivenUpOf(ds)|
  {
    if ds != [] {
      TallyCountsEach(ds[..|ds| - 1]);
    }
  }

  /** Extending the destinations by one extends each list by that destination's part. */
  lemma DestsSnoc(ds: seq<Dest>, d: Dest)
    ensures CompletedOf(ds + [d]) == CompletedOf(ds) + CompletedPart(d)
    ensures RequeuedOf(ds + [d]) == RequeuedOf(ds) + RequeuedPart(d)
    ensures GivenUpOf(ds + [d]) == GivenUpOf(ds) + GivenUpPart(d)
    ensures Tally(ds + [d]) == Count(Tally(ds), d)
  {
    assert (ds + [d])[..|ds|] == ds;
  }

  lemma DestsExtend(batch: seq<InverterTask>, outs: seq<Outcome>, o: Outcome, maxRetry: nat)
    requires |outs| < |batch|
    ensures Dests(batch[..|outs| + 1], outs + [o], maxRetry)
      == Dests(batch[..|outs|], outs, maxRetry) + [Route(batch[|outs|], o, maxRetry)]
  {
  }

  /**
   * Routing keeps every task under the retry ceiling: a task is requeued
   * only with a retry left, so its bumped count is still under the ceiling.
   */
  lemma {:induction false} PartsUnder(ds: seq<Dest>, maxRetry: nat)
    requires forall j :: 0 <= j < |ds| ==> ds[j].task.retryCount <= maxRetry
    ensures AllUnder(CompletedOf(ds), maxRetry) && AllUnder(RequeuedOf(ds), maxRetry) && AllUnder(GivenUpOf(ds), maxRetry)
  {
    if ds != [] {
      var init := ds[..|ds| - 1];
      var last := ds[|ds| - 1];
      PartsUnder(init, maxRetry);
      AllUnderAppend(CompletedOf(init), CompletedPart(last), maxRetry);
      AllUnderAppend(RequeuedOf(init), RequeuedPart(last), maxRetry);
      AllUnderAppend(GivenUpOf(init), GivenUpPart(last), maxRetry);
    }
  }

  lemma BatchRoutedUnder(batch: seq<InverterTask>, outs: seq<Outcome>, maxRetry: nat)
    requires |outs| == |batch| && AllUnder(batch, maxRetry)
    ensures var ds := Dests(batch, outs, maxRetry);
      AllUnder(CompletedOf(ds), maxRetry) && AllUnder(RequeuedOf(ds), maxRetry) && AllUnder(GivenUpOf(ds), maxRetry)
  {
    var ds := Dests(batch, outs, maxRetry);
    forall j | 0 <= j < |ds| ensures ds[j].task.retryCount <= maxRetry {
      assert ds[j] == Route(batch[j], outs[j], maxRetry);
    }
    PartsUnder(ds, maxRetry);
  }

  /** A task's identity: name, URL, action, inverter status. */
  type TaskId = (string, string, string, string)

  /** The identities of some tasks, in order. */
  function TaskKeys(ts: seq<InverterTask>): (ks: seq<TaskId>)
    ensures |ks| == |ts| && forall i :: 0 <= i < |ts| ==> ks[i] == ts[i].Key()
  {
    seq(|ts|, i requires 0 <= i < |ts| => ts[i].Key())
  }

  /** The identities of some tasks, as a multiset. */
  function Bag(ts: seq<InverterTask>): multiset<TaskId> {
    multiset(TaskKeys(ts))
  }

  lemma BagAppend(a: seq<InverterTask>, b: seq<InverterTask>)
    ensures Bag(a + b) == Bag(a) + Bag(b)
  {
    assert TaskKeys(a + b) == TaskKeys(a) + TaskKeys(b);
  }

  /** The identities of the tasks the destinations carry. */
  function DestKeys(ds: seq<Dest>): (ks: seq<TaskId>)
    ensures |ks| == |ds| && forall i :: 0 <= i < |ds| ==> ks[i] == ds[i].task.Key()
  {
    seq(|ds|, i requires 0 <= i < |ds| => ds[i].task.Key())
  }

  function DestBag(ds: seq<Dest>): multiset<TaskId> {
    multiset(DestKeys(ds))
  }

  /** Routing loses no task and makes none up: the three destinations hold the batch, as a multiset. */
  lemma {:induction false} RoutingPartitions(ds: seq<Dest>)
    ensures Bag(CompletedOf(ds)) + Bag(RequeuedOf(ds)) + Bag(GivenUpOf(ds)) == DestBag(ds)
  {
    if ds != [] {
      var init := ds[..|ds| - 1];
      var last := ds[|ds| - 1];
      RoutingPartitions(init);
      BagAppend(CompletedOf(init), CompletedPart(last));
      BagAppend(RequeuedOf(init), RequeuedPart(last));
      BagAppend(GivenUpOf(init), GivenUpPart(last));
      PartsBag(last);
      assert ds == init + [last];
      assert DestKeys(ds) == DestKeys(init) + [last.task.Key()];
      Regroup(Bag(CompletedOf(init)), Bag(RequeuedOf(init)), Bag(GivenUpOf(init)),
              Bag(CompletedPart(last)), Bag(RequeuedPart(last)), Bag(GivenUpPart(last)),
              DestBag(init), multiset{last.task.Key()});
    }
  }

  /** Each destination holds its task in exactly one of the three places. */
  lemma PartsBag(d: Dest)
    ensures Bag(CompletedPart(d)) + Bag(RequeuedPart(d)) + Bag(GivenUpPart(d)) == multiset{d.task.Key()}
  {
    BagSingleton(d.task);
  }

  lemma Regroup<T>(a: multiset<T>, b: multiset<T>, c: multiset<T>, x: multiset<T>, y: multiset<T>, z: multiset<T>,
                   m: multiset<T>, k: multiset<T>)
    requires a + b + c == m && x + y + z == k
    ensures (a + x) + (b + y) + (c + z) == m + k
  {
  }

  lemma BagSingleton(t: InverterTask)
    ensures Bag([t]) == multiset{t.Key()}
  {
    assert TaskKeys([t]) == [t.Key()];
  }

  lemma DestBagOfBatch(batch: seq<InverterTask>, outs: seq<Outcome>, maxRetry: nat)
    requires |outs| == |batch|
    ensures DestBag(Dests(batch, outs, maxRetry)) == Bag(batch)
  {
    assert DestKeys(Dests(batch, outs, maxRetry)) == TaskKeys(batch);
  }

  /**
   * The work left in the lanes: each task weighs one more than the retries
   * it has left. Every batch makes it strictly smaller.
   */
  function Weight(t: InverterTask, maxRetry: nat): nat {
    (if t.retryCount <= maxRetry then maxRetry + 1 - t.retryCount else 0) + 1
  }

  function Load(ts: seq<InverterTask>, maxRetry: nat): nat {
    if ts == [] then 0 else Load(ts[..|ts| - 1], maxRetry) + Weight(ts[|ts| - 1], maxRetry)
  }

  lemma {:induction false} LoadAppend(a: seq<InverterTask>, b: seq<InverterTask>, maxRetry: nat)
    ensures Load(a + b, maxRetry) == Load(a, maxRetry) + Load(b, maxRetry)
    decreases |b|
  {
    if b == [] {
      assert a + b == a;
    } else {
      assert (a + b)[..|a + b| - 1] == a + b[..|b| - 1];
      LoadAppend(a, b[..|b| - 1], maxRetry);
    }
  }

  /** One routed task weighs at least one less in the retry lane than it did in the batch. */
  lemma RouteLightens(t: InverterTask, o: Outcome, maxRetry: nat)
    ensures Load(RequeuedPart(Route(t, o, maxRetry)), maxRetry) + 1 <= Weight(t, maxRetry)
  {
    var d := Route(t, o, maxRetry);
    if d.Requeued? {
      assert [d.task][..0] == [];
    }
  }

  /** The requeued tasks weigh at least one less per batch task than the batch did. */
  lemma {:induction false} RequeueLightens(batch: seq<InverterTask>, outs: seq<Outcome>, maxRetry: nat)
    requires |outs| == |batch|
    ensures Load(RequeuedOf(Dests(batch, outs, maxRetry)), maxRetry) + |batch| <= Load(batch, maxRetry)
    decreases |batch|
  {
    if batch != [] {
      var n := |batch| - 1;
      var ds := Dests(batch, outs, maxRetry);
      var init := Dests(batch[..n], outs[..n], maxRetry);
      assert ds[..n] == init;
      RequeueLightens(batch[..n], outs[..n], maxRetry);
      assert RequeuedOf(ds) == RequeuedOf(init) + RequeuedPart(ds[n]);
      LoadAppend(RequeuedOf(init), RequeuedPart(ds[n]), maxRetry);
      assert Load(batch, maxRetry) == Load(batch[..n], maxRetry) + Weight(batch[n], maxRetry);
      RouteLightens(batch[n], outs[n], maxRetry);
    }
  }

  /** `_get_final_results`: one row per completed task, then one per given-up task. */
  datatype Row = Row(name: string, status: string, message: string)

  const GivenUpPrefix := "Vượt quá số lần retry: "

  function FinalResults(completed: seq<InverterTask>, failed: seq<InverterTask>): (rows: seq<Row>)
    ensures |rows| == |completed| + |failed|
    ensures forall i :: 0 <= i < |completed| ==>
      rows[i] == Row(completed[i].fullName, completed[i].completionStatus.GetOr(""), completed[i].completionMessage.GetOr(""))
    ensures forall i :: 0 <= i < |failed| ==>
      rows[|completed| + i] == Row(failed[i].fullName, "FAILED", GivenUpPrefix + Controller.Show(failed[i].lastError))
  {
    seq(|completed|, i requires 0 <= i < |completed| =>
        Row(completed[i].fullName, completed[i].completionStatus.GetOr(""), completed[i].completionMessage.GetOr("")))
    + seq(|failed|, i requires 0 <= i < |failed| =>
        Row(failed[i].fullName, "FAILED", GivenUpPrefix + Controller.Show(failed[i].lastError)))
  }

  /** The rows name the finished tasks, each once, in the order they finished. */
  lemma FinalResultsNames(completed: seq<InverterTask>, failed: seq<InverterTask>)
    ensures var rows := FinalResults(completed, failed);
      forall i :: 0 <= i < |rows| ==> rows[i].name == (completed + failed)[i].fullName
  {
  }

  /** Where `_process_final_retry` sends one task: completed either way. */
  function FinalRoute(t: InverterTask, o: Outcome): (c: InverterTask)
    ensures c.Key() == t.Key() && c.retryCount == t.retryCount
    ensures o.status in {Success, Skipped} ==> c.completionStatus == Some(o.status.Name())
    ensures o.status !in {Success, Skipped} ==> c.completionStatus == Some("FAILED")
  {
    if o.status == Success || o.status == Skipped then Completed(t, o.status.Name(), o.message)
    else Completed(t, "FAILED", FinalFailurePrefix + o.message)
  }

  const FinalFailurePrefix := "Final retry failed: "

  function FinalRoutes(batch: seq<InverterTask>, outs: seq<Outcome>): (cs: seq<InverterTask>)
    requires |outs| == |batch|
    ensures |cs| == |batch|
  {
    if batch == [] then []
    else FinalRoutes(batch[..|batch| - 1], outs[..|outs| - 1]) + [FinalRoute(batch[|batch| - 1], outs[|outs| - 1])]
  }

  lemma FinalRoutesExtend(batch: seq<InverterTask>, outs: seq<Outcome>, o: Outcome)
    requires |outs| < |batch|
    ensures FinalRoutes(batch[..|outs| + 1], outs + [o]) == FinalRoutes(batch[..|outs|], outs) + [FinalRoute(batch[|outs|], o)]
  {
    var n := |outs|;
    assert batch[..n + 1][..n] == batch[..n] && (outs + [o])[..n] == outs;
  }

  /** The final pass keeps every task's retry count. */
  lemma {:induction false} FinalRoutesUnder(batch: seq<InverterTask>, outs: seq<Outcome>, maxRetry: nat)
    requires |outs| == |batch| && AllUnder(batch, maxRetry)
    ensures AllUnder(FinalRoutes(batch, outs), maxRetry)
  {
    if batch != [] {
      var n := |batch| - 1;
      assert AllUnder(batch[..n], maxRetry);
      FinalRoutesUnder(batch[..n], outs[..n], maxRetry);
      AllUnderAppend(FinalRoutes(batch[..n], outs[..n]), [FinalRoute(batch[n], outs[n])], maxRetry);
    }
  }

  /** The final pass completes exactly the tasks it drew. */
  lemma {:induction false} FinalRoutesBag(batch: seq<InverterTask>, outs: seq<Outcome>)
    requires |outs| == |batch|
    ensures Bag(FinalRoutes(batch, outs)) == Bag(batch)
  {
    if batch != [] {
      var n := |batch| - 1;
      FinalRoutesBag(batch[..n], outs[..n]);
      BagAppend(FinalRoutes(batch[..n], outs[..n]), [FinalRoute(batch[n], outs[n])]);
      BagAppend(batch[..n], [batch[n]]);
      BagSingleton(FinalRoute(batch[n], outs[n]));
      BagSingleton(batch[n]);
      assert batch == batch[..n] + [batch[n]];
    }
  }

  /** The number of outcomes that count as completed. */
  function CountGood(outs: seq<Outcome>): (n: nat)
    ensures n <= |outs|
  {
    if outs == [] then 0
    else CountGood(outs[..|outs| - 1]) + (if outs[|outs| - 1].status in {Success, Skipped} then 1 else 0)
  }

  /** The counter one outcome of the final pass bumps. */
  function FinalCount(s: BatchStats, o: Outcome): BatchStats {
    if o.status in {Success, Skipped} then s.(completed := s.completed + 1) else s.(failed := s.failed + 1)
  }

  /** The `stats` of `_process_final_retry` after these outcomes. */
  function FinalTally(outs: seq<Outcome>): BatchStats {
    if outs == [] then BatchStats(0, 0, 0) else FinalCount(FinalTally(outs[..|outs| - 1]), outs[|outs| - 1])
  }

  /** The final pass counts every good outcome completed and every other one failed; it retries none. */
  lemma {:induction false} FinalTallyCounts(outs: seq<Outcome>)
    ensures FinalTally(outs) == BatchStats(CountGood(outs), 0, |outs| - CountGood(outs))
  {
    if outs != [] {
      FinalTallyCounts(outs[..|outs| - 1]);
    }
  }

  /** Completing one more task of the final pass. */
  lemma FinalStep(start: Lanes, tasks: seq<InverterTask>, outs: seq<Outcome>, o: Outcome)
    requires |outs| < |tasks|
    ensures Finish(Finish(start, FinalRoutes(tasks[..|outs|], outs)), [FinalRoute(tasks[|outs|], o)])
      == Finish(start, FinalRoutes(tasks[..|outs| + 1], outs + [o]))
    ensures FinalTally(outs + [o]) == FinalCount(FinalTally(outs), o)
  {
    FinalRoutesExtend(tasks, outs, o);
    FinishTwice(start, FinalRoutes(tasks[..|outs|], outs), [FinalRoute(tasks[|outs|], o)]);
    FinalTallySnoc(outs, o);
  }

  lemma FinishTwice(l: Lanes, a: seq<InverterTask>, b: seq<InverterTask>)
    ensures Finish(Finish(l, a), b) == Finish(l, a + b)
  {
  }

  lemma FinalTallySnoc(outs: seq<Outcome>, o: Outcome)
    ensures FinalTally(outs + [o]) == FinalCount(FinalTally(outs), o)
  {
    assert (outs + [o])[..|outs|] == outs;
  }

  /** The lanes and lists of a queue as one multiset of task identities. */
  function Census(l: Lanes): multiset<TaskId> {
    Bag(l.primary) + Bag(l.retry) + Bag(l.completed) + Bag(l.failed)
  }

  /** The queue's `Valid`: every task in the lanes and lists is under the retry ceiling. */
  predicate LanesUnder(l: Lanes) {
    AllUnder(l.primary, MaxRetryQueue) && AllUnder(l.retry, MaxRetryQueue)
    && AllUnder(l.completed, MaxRetryQueue) && AllUnder(l.failed, MaxRetryQueue)
  }

  /** The lanes once `get_next_batch(n)` has drawn its batch. */
  function Drawn(l: Lanes, n: int): Lanes {
    var s := NextBatch(l.primary, l.retry, n);
    l.(primary := s.primary, retry := s.retry)
  }

  /** The lanes once the final pass has completed `cs`. */
  function Finish(l: Lanes, cs: seq<InverterTask>): Lanes {
    l.(completed := l.completed + cs)
  }

  /** The routing of `_process_batch` for one outcome. */
  method RouteOutcome(queue: SmartTaskQueue, task: InverterTask, o: Outcome, stats: BatchStats) returns (next: BatchStats)
    requires queue.maxRetryQueue == MaxRetryQueue
    modifies queue
    ensures LanesOf(queue) == Step(old(LanesOf(queue)), Route(task, o, MaxRetryQueue))
    ensures next == Count(stats, Route(task, o, MaxRetryQueue))
  {
    match o.status {
      case Success =>
        queue.MarkCompleted(task, o.status.Name(), o.message);
        next := stats.(completed := stats.completed + 1);
      case Skipped =>
        queue.MarkCompleted(task, o.status.Name(), o.message);
        next := stats.(completed := stats.completed + 1);
      case Retry =>
        var requeued := queue.AddToRetryQueue(task, Some(o.message));
        if requeued {
          next := stats.(retried := stats.retried + 1);
        } else {
          next := stats.(failed := stats.failed + 1);
        }
      case Failed =>
        queue.MarkCompleted(task, o.status.Name(), o.message);
        next := stats.(failed := stats.failed + 1);
    }
  }

  /** The completion of `_process_final_retry` for one outcome. */
  method FinishOutcome(queue: SmartTaskQueue, task: InverterTask, o: Outcome, stats: BatchStats) returns (next: BatchStats)
    modifies queue
    ensures LanesOf(queue) == Finish(old(LanesOf(queue)), [FinalRoute(task, o)])
    ensures next == FinalCount(stats, o)
  {
    if o.status == Success || o.status == Skipped {
      queue.MarkCompleted(task, o.status.Name(), o.message);
      next := stats.(completed := stats.completed + 1);
    } else {
      queue.MarkCompleted(task, "FAILED", FinalFailurePrefix + o.message);
      next := stats.(failed := stats.failed + 1);
    }
  }

  class TaskProcessor {
    const queue: SmartTaskQueue
    const pool: DP.DynamicDriverPool
    /** The browser's behaviour for each attempt. */
    const env: InverterTask -> Attempt

    /** The settings the processor was built with. */
    predicate Wired() {
      queue.maxRetryQueue == MaxRetryQueue && pool.config == DP.PackageConfig
    }

    constructor (browserSupported: bool, works: (nat, nat) -> bool, env: InverterTask -> Attempt)
      ensures this.env == env && Wired()
      ensures fresh(queue) && fresh(pool)
      ensures queue.primary == [] && queue.retry == [] && queue.completed == [] && queue.failed == [] && queue.Valid()
      ensures pool.browserSupported == browserSupported && pool.works == works
      ensures !pool.isInitialized && pool.calls == 0 && pool.returned == [] && pool.Valid()
    {
      this.env := env;
      queue := new SmartTaskQueue(MaxRetryQueue);
      pool := new DP.DynamicDriverPool(DP.PackageConfig, browserSupported, works);
    }

    /** Whether `get_driver` would lend a driver now. */
    predicate Lends()
      reads pool
    {
      pool.isInitialized && pool.semaphore > 0 && pool.available != []
    }

    /** One of the outcomes `process_single_inverter` can give for `t`. */
    predicate Possible(t: InverterTask, o: Outcome) {
      o == SingleOutcome(t, env(t), true) || o == SingleOutcome(t, env(t), false)
    }

    /** Each outcome is one `process_single_inverter` can give for the task beside it. */
    predicate AllPossible(ts: seq<InverterTask>, os: seq<Outcome>)
      requires |ts| == |os|
    {
      ts == [] || (AllPossible(ts[..|ts| - 1], os[..|os| - 1]) && Possible(ts[|ts| - 1], os[|os| - 1]))
    }

    /** One more task and its outcome, both taken from the front of longer sequences. */
    lemma AllPossibleExtend(ts: seq<InverterTask>, os: seq<Outcome>, o: Outcome)
      requires |os| < |ts| && AllPossible(ts[..|os|], os) && Possible(ts[|os|], o)
      ensures AllPossible(ts[..|os| + 1], os + [o])
    {
      var n := |os|;
      assert ts[..n + 1][..n] == ts[..n] && (os + [o])[..n] == os;
    }

    /**
     * `process_single_inverter`: skip a FAULTY inverter's ON request; take a
     * driver or give up for now; log in and act; give the driver back on
     * every path once it was taken.
     */
    method ProcessSingleInverter(task: InverterTask) returns (o: Outcome)
      modifies pool
      ensures o == SingleOutcome(task, env(task), !FaultyOn(task) && old(Lends()))
      ensures FaultyOn(task) || !old(Lends()) ==> unchanged(pool)
      ensures !FaultyOn(task) && old(Lends()) ==> pool.returned == old(pool.returned) + [old(pool.available)[0]]
      ensures old(pool.Valid()) ==> pool.Valid()
      ensures pool.isInitialized == old(pool.isInitialized)
    {
      if FaultyOn(task) {
        return Outcome(Skipped, FaultyMessage);
      }
      var driver := pool.GetDriver();
      if driver == None {
        return Outcome(Retry, NoDriverMessage);
      }
      var a := env(task);
      if a.raised.Some? {
        o := Outcome(Retry, UnexpectedPrefix + a.raised.value);
      } else if !a.login {
        o := Outcome(Retry, LoginFailedMessage);
      } else {
        var (success, message) := Controller.PerformGridAction(task.requiredAction, a.page);
        o := Outcome(Classify(success, message), message);
      }
      pool.ReturnDriver(driver, a.healthy, a.resetOk);
    }

    /** One task of `_process_batch`: run it, then route its outcome and bump one counter. */
    method HandleTask(task: InverterTask, stats: BatchStats) returns (o: Outcome, next: BatchStats)
      requires Wired()
      modifies queue, pool
      ensures Possible(task, o)
      ensures LanesOf(queue) == Step(old(LanesOf(queue)), Route(task, o, MaxRetryQueue))
      ensures next == Count(stats, Route(task, o, MaxRetryQueue))
    {
      o := ProcessSingleInverter(task);
      next := RouteOutcome(queue, task, o, stats);
    }

    /**
     * `_process_batch`: take up to `max_workers` tasks, run each and route
     * its outcome: SUCCESS and SKIPPED to completed, RETRY through
     * `add_to_retry_queue`, FAILED to completed and counted failed.
     */
    method ProcessBatch() returns (stats: BatchStats, ghost batch: seq<InverterTask>, ghost outs: seq<Outcome>)
      requires Wired()
      modifies queue, pool
      ensures batch == NextBatch(old(queue.primary), old(queue.retry), MaxWorkers).batch && |outs| == |batch|
      ensures LanesOf(queue) == Apply(Drawn(old(LanesOf(queue)), MaxWorkers), Dests(batch, outs, MaxRetryQueue))
      ensures stats == Tally(Dests(batch, outs, MaxRetryQueue))
      ensures AllPossible(batch, outs)
      ensures old(queue.Valid()) ==> queue.Valid()
    {
      ghost var l0 := LanesOf(queue);
      var tasks := queue.GetNextBatch(MaxWorkers);
      assert unchanged(pool);
      assert LanesOf(queue) == Drawn(l0, MaxWorkers);
      batch := tasks;
      stats, outs := RunTasks(tasks);
      if LanesUnder(l0) {
        BatchUnder(l0.primary, l0.retry, MaxWorkers);
        DrawnUnder(l0, MaxWorkers);
        RoutedLanesUnder(Drawn(l0, MaxWorkers), batch, outs);
      }
    }

    /** The worker loop of `_process_batch`: every task of the batch, in batch order. */
    method RunTasks(tasks: seq<InverterTask>) returns (stats: BatchStats, ghost outs: seq<Outcome>)
      requires Wired()
      modifies queue, pool
      ensures |outs| == |tasks|
      ensures LanesOf(queue) == Apply(old(LanesOf(queue)), Dests(tasks, outs, MaxRetryQueue))
      ensures stats == Tally(Dests(tasks, outs, MaxRetryQueue))
      ensures AllPossible(tasks, outs)
    {
      stats := BatchStats(0, 0, 0);
      outs := [];
      ghost var start := LanesOf(queue);
      ghost var ds: seq<Dest> := [];
      for i := 0 to |tasks|
        invariant |outs| == i && ds == Dests(tasks[..i], outs, MaxRetryQueue)
        invariant LanesOf(queue) == Apply(start, ds)
        invariant stats == Tally(ds)
        invariant AllPossible(tasks[..i], outs)
      {
        var o;
        o, stats := HandleTask(tasks[i], stats);
        ghost var d := Route(tasks[i], o, MaxRetryQueue);
        DestsSnoc(ds, d);
        ApplySnoc(start, ds, d);
        DestsExtend(tasks, outs, o, MaxRetryQueue);
        AllPossibleExtend(tasks, outs, o);
        ds := ds + [d];
        outs := outs + [o];
      }
      assert tasks[..|tasks|] == tasks;
    }

    /** One task of `_process_final_retry`: run it, then complete it either way and bump one counter. */
    method HandleFinal(task: InverterTask, stats: BatchStats) returns (o: Outcome, next: BatchStats)
      requires Wired()
      modifies queue, pool
      ensures Possible(task, o)
      ensures LanesOf(queue) == Finish(old(LanesOf(queue)), [FinalRoute(task, o)])
      ensures next == FinalCount(stats, o)
    {
      o := ProcessSingleInverter(task);
      next := FinishOutcome(queue, task, o, stats);
    }

    /**
     * `_process_final_retry`: when retries are left, take as many tasks as
     * the retry lane holds (primary tasks first, should any be left) and
     * complete each, as SUCCESS/SKIPPED or as FAILED with the
     * "Final retry failed: " prefix. Nothing is requeued.
     */
    method ProcessFinalRetry() returns (stats: BatchStats, ghost batch: seq<InverterTask>, ghost outs: seq<Outcome>)
      requires Wired()
      modifies queue, pool
      ensures batch == NextBatch(old(queue.primary), old(queue.retry), |old(queue.retry)|).batch && |outs| == |batch|
      ensures LanesOf(queue) == Finish(Drawn(old(LanesOf(queue)), |old(queue.retry)|), FinalRoutes(batch, outs))
      ensures stats == BatchStats(CountGood(outs), 0, |batch| - CountGood(outs))
      ensures old(queue.retry) == [] ==> batch == [] && unchanged(pool)
      ensures AllPossible(batch, outs)
      ensures old(queue.Valid()) ==> queue.Valid()
    {
      ghost var l0 := LanesOf(queue);
      if |queue.retry| == 0 {
        NothingDrawn(l0);
        return BatchStats(0, 0, 0), [], [];
      }
      var tasks := queue.GetNextBatch(|queue.retry|);
      assert unchanged(pool);
      assert LanesOf(queue) == Drawn(l0, |l0.retry|);
      batch := tasks;
      stats, outs := RunFinal(tasks);
      if LanesUnder(l0) {
        BatchUnder(l0.primary, l0.retry, |l0.retry|);
        DrawnUnder(l0, |l0.retry|);
        FinishUnder(Drawn(l0, |l0.retry|), batch, outs);
      }
    }

    /** The worker loop of `_process_final_retry`: every drained task, in order. */
    method RunFinal(tasks: seq<InverterTask>) returns (stats: BatchStats, ghost outs: seq<Outcome>)
      requires Wired()
      modifies queue, pool
      ensures |outs| == |tasks|
      ensures LanesOf(queue) == Finish(old(LanesOf(queue)), FinalRoutes(tasks, outs))
      ensures stats == BatchStats(CountGood(outs), 0, |tasks| - CountGood(outs))
      ensures AllPossible(tasks, outs)
    {
      stats := BatchStats(0, 0, 0);
      outs := [];
      ghost var start := LanesOf(queue);
      for i := 0 to |tasks|
        invariant |outs| == i
        invariant LanesOf(queue) == Finish(start, FinalRoutes(tasks[..i], outs))
        invariant stats == FinalTally(outs)
        invariant AllPossible(tasks[..i], outs)
      {
        var o;
        o, stats := HandleFinal(tasks[i], stats);
        FinalStep(start, tasks, outs, o);
        AllPossibleExtend(tasks, outs, o);
        outs := outs + [o];
      }
      assert tasks[..|tasks|] == tasks;
      FinalTallyCounts(outs);
    }

    /**
     * The main loop of `run_parallel_optimized`: batches while tasks are
     * pending, stopping early once the primary lane is empty and fewer than
     * three retries are left.
     */
    method RunBatches()
      requires Wired()
      modifies queue, pool
      ensures queue.primary == [] && |queue.retry| < EarlyStopRetries
      ensures Census(LanesOf(queue)) == Census(old(LanesOf(queue)))
      ensures old(queue.Valid()) ==> queue.Valid()
    {
      while queue.HasPendingTasks()
        invariant Census(LanesOf(queue)) == Census(old(LanesOf(queue)))
        invariant old(queue.Valid()) ==> queue.Valid()
        decreases Load(queue.primary + queue.retry, MaxRetryQueue)
      {
        ghost var l0 := LanesOf(queue);
        var batchStats, batch, outs := ProcessBatch();
        BatchKeepsCensus(l0, MaxWorkers, batch, outs);
        BatchLightens(l0, MaxWorkers, batch, outs);
        var queueStats := queue.GetStats();
        if queueStats.primaryQueue == 0 && queueStats.retryQueue < EarlyStopRetries {
          break;
        }
      }
    }

    /** Whether `initialize_pool` succeeds for `n` tasks. */
    ghost predicate PoolStarts(n: nat)
      reads pool
    {
      pool.config.tasksPerDriver > 0 &&
      (pool.isInitialized
       || DP.CreatedIds(pool.browserSupported, pool.works, pool.calls, DP.OptimalPoolSize(n, pool.config)) != [])
    }

    /**
     * `run_parallel_optimized`: prepare the tasks; with none, or with no
     * driver, report nothing; otherwise queue them, run the batches, give
     * the retries left a final pass and report every finished task. The
     * pool is cleaned up on every path.
     */
    method RunParallelOptimized(urls: Inventory.SystemUrls, requests: Inventory.Requests,
                                quitOk: DP.DriverId -> bool) returns (results: seq<Row>)
      requires Wired()
      modifies queue, pool
      ensures !pool.isInitialized
      ensures var tasks := Inventory.PreparedTasks(urls, requests);
        tasks == [] || !old(PoolStarts(|tasks|)) ==> results == [] && unchanged(queue)
      ensures var tasks := Inventory.PreparedTasks(urls, requests);
        tasks != [] && old(PoolStarts(|tasks|)) ==>
          && queue.primary == [] && queue.retry == []
          && results == FinalResults(queue.completed, queue.failed)
          && Bag(queue.completed + queue.failed) == Census(old(LanesOf(queue))) + Bag(tasks)
      ensures old(queue.Valid()) ==> queue.Valid()
    {
      var tasks, totalInverters := Inventory.PrepareTasks(urls, requests);
      if |tasks| == 0 {
        pool.Cleanup(quitOk);
        return [];
      }
      var poolSuccess := pool.InitializePool(|tasks|);
      if !poolSuccess {
        pool.Cleanup(quitOk);
        return [];
      }
      FreshTasksUnder(urls, requests);
      results := RunQueued(tasks);
      pool.Cleanup(quitOk);
    }

    /**
     * The part of `run_parallel_optimized` between a successful pool start
     * and the cleanup: queue the tasks, run the batches and the final pass,
     * and report every finished task.
     */
    method RunQueued(tasks: seq<InverterTask>) returns (results: seq<Row>)
      requires Wired() && AllUnder(tasks, MaxRetryQueue)
      modifies queue, pool
      ensures queue.primary == [] && queue.retry == []
      ensures results == FinalResults(queue.completed, queue.failed)
      ensures Bag(queue.completed + queue.failed) == Census(old(LanesOf(queue))) + Bag(tasks)
      ensures old(queue.Valid()) ==> queue.Valid()
    {
      ghost var l0 := LanesOf(queue);
      queue.AddTasks(tasks);
      CensusAdd(l0, tasks);
      RunBatches();
      ghost var l1 := LanesOf(queue);
      var finalStats, finalBatch, finalOuts := ProcessFinalRetry();
      FinalShape(l1, finalBatch, finalOuts, LanesOf(queue));
      FinalRoutesBag(finalBatch, finalOuts);
      FinalCensus(l1, FinalRoutes(finalBatch, finalOuts), LanesOf(queue));
      results := FinalResults(queue.completed, queue.failed);
    }
  }

  /** A batch drawn from lanes under the retry ceiling is under it too. */
  lemma BatchUnder(primary: seq<InverterTask>, retry: seq<InverterTask>, n: int)
    requires AllUnder(primary, MaxRetryQueue) && AllUnder(retry, MaxRetryQueue)
    ensures AllUnder(NextBatch(primary, retry, n).batch, MaxRetryQueue)
  {
    var s := NextBatch(primary, retry, n);
    NextBatchSplits(primary, retry, n);
    AllUnderAppend(primary, retry, MaxRetryQueue);
    AllUnderAppend(s.batch + s.primary, s.retry, MaxRetryQueue);
    AllUnderAppend(s.batch, s.primary, MaxRetryQueue);
  }

  /** So are the lanes the batch leaves. */
  lemma DrawnUnder(l: Lanes, n: int)
    requires LanesUnder(l)
    ensures LanesUnder(Drawn(l, n))
  {
    var s := NextBatch(l.primary, l.retry, n);
    NextBatchSplits(l.primary, l.retry, n);
    AllUnderAppend(l.primary, l.retry, MaxRetryQueue);
    AllUnderAppend(s.batch + s.primary, s.retry, MaxRetryQueue);
    AllUnderAppend(s.batch, s.primary, MaxRetryQueue);
  }

  /** Routing a batch under the ceiling keeps the lanes under it: `_process_batch` keeps the queue valid. */
  lemma RoutedLanesUnder(l: Lanes, batch: seq<InverterTask>, outs: seq<Outcome>)
    requires |outs| == |batch| && LanesUnder(l) && AllUnder(batch, MaxRetryQueue)
    ensures LanesUnder(Apply(l, Dests(batch, outs, MaxRetryQueue)))
  {
    var ds := Dests(batch, outs, MaxRetryQueue);
    ApplyRoutes(l, ds);
    BatchRoutedUnder(batch, outs, MaxRetryQueue);
    AllUnderAppend(l.retry, RequeuedOf(ds), MaxRetryQueue);
    AllUnderAppend(l.completed, CompletedOf(ds), MaxRetryQueue);
    AllUnderAppend(l.failed, GivenUpOf(ds), MaxRetryQueue);
  }

  /** The final pass keeps the queue valid too. */
  lemma FinishUnder(l: Lanes, batch: seq<InverterTask>, outs: seq<Outcome>)
    requires |outs| == |batch| && LanesUnder(l) && AllUnder(batch, MaxRetryQueue)
    ensures LanesUnder(Finish(l, FinalRoutes(batch, outs)))
  {
    FinalRoutesUnder(batch, outs, MaxRetryQueue);
    AllUnderAppend(l.completed, FinalRoutes(batch, outs), MaxRetryQueue);
  }

  /** Prepared tasks are new, so they are under any retry ceiling. */
  lemma FreshTasksUnder(urls: Inventory.SystemUrls, requests: Inventory.Requests)
    ensures AllUnder(Inventory.PreparedTasks(urls, requests), MaxRetryQueue)
  {
    var tasks := Inventory.PreparedTasks(urls, requests);
    Inventory.PreparedTasksRequested(urls, requests);
    forall i | 0 <= i < |tasks| ensures tasks[i].retryCount <= MaxRetryQueue {
      assert tasks[i] in tasks;
    }
  }

  /** One batch moves tasks between lanes and lists without losing or adding any. */
  lemma BatchKeepsCensus(l0: Lanes, n: int, batch: seq<InverterTask>, outs: seq<Outcome>)
    requires |outs| == |batch|
    requires batch == NextBatch(l0.primary, l0.retry, n).batch
    ensures Census(Apply(Drawn(l0, n), Dests(batch, outs, MaxRetryQueue))) == Census(l0)
  {
    var s := NextBatch(l0.primary, l0.retry, n);
    NextBatchSplits(l0.primary, l0.retry, n);
    var ds := Dests(batch, outs, MaxRetryQueue);
    ApplyRoutes(Drawn(l0, n), ds);
    RoutingPartitions(ds);
    DestBagOfBatch(batch, outs, MaxRetryQueue);
    BagAppend(s.retry, RequeuedOf(ds));
    BagAppend(l0.completed, CompletedOf(ds));
    BagAppend(l0.failed, GivenUpOf(ds));
    BagAppend(s.batch + s.primary, s.retry);
    BagAppend(s.batch, s.primary);
    BagAppend(l0.primary, l0.retry);
    Reshuffle(Bag(l0.primary), Bag(l0.retry), Bag(l0.completed), Bag(l0.failed), Bag(s.primary), Bag(s.retry),
              Bag(batch), Bag(CompletedOf(ds)), Bag(RequeuedOf(ds)), Bag(GivenUpOf(ds)));
  }

  /** The multiset arithmetic of one batch: drawn from the lanes, then routed to three places. */
  lemma Reshuffle<T>(p: multiset<T>, r: multiset<T>, c: multiset<T>, f: multiset<T>,
                     p': multiset<T>, r': multiset<T>, batch: multiset<T>,
                     done: multiset<T>, requeued: multiset<T>, givenUp: multiset<T>)
    requires batch + p' + r' == p + r
    requires done + requeued + givenUp == batch
    ensures p' + (r' + requeued) + (c + done) + (f + givenUp) == p + r + c + f
  {
  }

  /** One non-empty batch makes the lanes lighter, so the main loop ends. */
  lemma BatchLightens(l0: Lanes, n: int, batch: seq<InverterTask>, outs: seq<Outcome>)
    requires |outs| == |batch| && l0.primary + l0.retry != [] && n >= 1
    requires batch == NextBatch(l0.primary, l0.retry, n).batch
    ensures var l1 := Apply(Drawn(l0, n), Dests(batch, outs, MaxRetryQueue));
      Load(l1.primary + l1.retry, MaxRetryQueue) < Load(l0.primary + l0.retry, MaxRetryQueue)
  {
    var s := NextBatch(l0.primary, l0.retry, n);
    NextBatchSplits(l0.primary, l0.retry, n);
    var ds := Dests(batch, outs, MaxRetryQueue);
    ApplyRoutes(Drawn(l0, n), ds);
    RequeueLightens(batch, outs, MaxRetryQueue);
    LoadAppend(s.primary, s.retry + RequeuedOf(ds), MaxRetryQueue);
    LoadAppend(s.retry, RequeuedOf(ds), MaxRetryQueue);
    LoadAppend(s.batch + s.primary, s.retry, MaxRetryQueue);
    LoadAppend(s.batch, s.primary, MaxRetryQueue);
  }

  /** Queueing new tasks adds them to the census. */
  lemma CensusAdd(l: Lanes, tasks: seq<InverterTask>)
    ensures Census(l.(primary := l.primary + tasks)) == Census(l) + Bag(tasks)
  {
    BagAppend(l.primary, tasks);
  }

  /** With the retry lane empty, the final pass draws and completes nothing. */
  lemma NothingDrawn(l: Lanes)
    requires l.retry == []
    ensures NextBatch(l.primary, l.retry, 0).batch == []
    ensures Finish(Drawn(l, 0), FinalRoutes([], [])) == l && CountGood([]) == 0
  {
    var s := NextBatch(l.primary, l.retry, 0);
    NextBatchSplits(l.primary, l.retry, 0);
    assert s.batch + s.primary + s.retry == l.primary;
    assert FinalRoutes([], []) == [];
    assert l.completed + [] == l.completed;
  }

  /** With the primary lane empty, drawing as many tasks as the retry lane holds drains it. */
  lemma DrainAll(l: Lanes)
    requires l.primary == []
    ensures NextBatch([], l.retry, |l.retry|).batch == l.retry && Drawn(l, |l.retry|) == l.(retry := [])
  {
    var s := NextBatch([], l.retry, |l.retry|);
    NextBatchSplits([], l.retry, |l.retry|);
    assert |s.batch| == |l.retry|;
    assert s.batch + s.primary + s.retry == l.retry;
  }

  /**
   * Once the final pass has drained the retry lane into the completed list,
   * the two lists hold the census from before it.
   */
  lemma FinalCensus(l1: Lanes, cs: seq<InverterTask>, l2: Lanes)
    requires l1.primary == [] && Bag(cs) == Bag(l1.retry)
    requires l2 == Lanes([], [], l1.completed + cs, l1.failed)
    ensures Bag(l2.completed + l2.failed) == Census(l1)
  {
    BagAppend(l1.completed + cs, l1.failed);
    BagAppend(l1.completed, cs);
    assert Bag(l1.primary) == multiset{};
    Rotate(Bag(l1.completed), Bag(l1.retry), Bag(l1.failed));
  }

  /** The final pass drains the retry lane into the completed list. */
  lemma FinalShape(l1: Lanes, batch: seq<InverterTask>, outs: seq<Outcome>, l2: Lanes)
    requires l1.primary == [] && |outs| == |batch|
    requires batch == NextBatch([], l1.retry, |l1.retry|).batch
    requires l2 == Finish(Drawn(l1, |l1.retry|), FinalRoutes(batch, outs))
    ensures batch == l1.retry && l2 == Lanes([], [], l1.completed + FinalRoutes(batch, outs), l1.failed)
  {
    DrainAll(l1);
  }

  lemma Rotate<T>(c: multiset<T>, r: multiset<T>, f: multiset<T>)
    ensures c + r + f == multiset{} + r + c + f
  {
  }
}
