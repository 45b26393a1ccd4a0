# Inverter grid on/off automation — a Dafny model

The repository switches solar inverters on and off the grid in bulk to
curtail a plant's output. It logs in to each inverter's web console
through a browser session and double-clicks its "Connect Grid" /
"Disconnect Grid" link. It works station by station, up to a requested
count of inverters per station. This project models its core in Dafny
and proves properties of that model.

There are three programs.

- The `inverter_control` package covers:
  - a pool of browser sessions (`DynamicDriverPool`);
  - a task queue with a primary lane and a retry lane (`SmartTaskQueue`);
  - the controller's grid decision (`InverterController`);
  - the batch scheduler (`TaskProcessor`);
  - the Excel configuration reader;
  - the requirements checker and the small helpers.
- `curtailment.py` is an all-in-one script with its own copies of these
  classes. Its grid decision, its outcome classification and its
  processor differ from the package's, and those are modelled separately.
- `curtailment_zone_b.py` is a stand-alone sequential script for zone B.

Modules follow the source:

- `TaskQueue` (task_queue.dfy): `InverterTask` as a value; `SmartTaskQueue` as a class with `seq` lanes.
- `DriverPool` (driver_pool.dfy): `DynamicDriverPool` as a class: idle FIFO, in-use set, semaphore count, quit drivers.
- `Controller` (controller.dfy): the package's login URL, status reading and grid decision.
- `CurtailmentControl` (curtailment_control.dfy): the script's status reading, decision and wait for the change.
- `Inventory`, `KeySort` (inventory.dfy, key_sort.dfy): `prepare_tasks` and `sorted(d.items())`.
- `TaskProcessor` (task_processor.dfy): the package's classification, routing, batch loop and final retry pass.
- `CurtailmentProcessor` (curtailment_processor.dfy): the script's processor with its one-task, few-task and many-task strategies.
- `ZoneB` (zone_b.dfy): `turn_on_grid`, `turn_off_grid` and `control_station_by_count`.
- `ExcelReader` (excel_reader.dfy): the sheet check, the two row folds, the scenario menu and the validation.
- `SystemChecker` (system_checker.dfy): requirement parsing, version comparison, the install list and the check record.
- `Helpers` (helpers.dfy): `format_duration`, `validate_ip_address`.
- `Strings`, `OrderedMaps`, `Wrappers` (strings.dfy, ordered_maps.dfy, wrappers.dfy): Python's `str` operations used, insertion-ordered dicts, `Option`.

Things outside the program are inputs to the model:

- The browser and the device's web page are inputs. The pool gets a
  function saying whether creation call `k` yields a driver. The
  processors get a function saying what logging in and acting on a task
  gives: login success, the statuses the page shows, or an escaped error.
- Threads are not modelled. Each batch runs its tasks one after another,
  in batch order.
- A file or sheet that cannot be read is `None`.

Two behaviours of the code are worth stating on their own:

- A driver replaced by `return_driver` stays in `in_use_drivers`
  (inverter_control/core/driver_pool.py:461-476): only the new driver is
  queued. `DriverPool.DynamicDriverPool.ReturnDriver` keeps `inUse`
  unchanged on that path.
- The script classifies every unsuccessful action that lacks the skip
  marker as RETRY (curtailment.py:918-927). The package also has FAILED.


## Model

| member | source | states |
|---|---|---|
| TaskQueue.NewTask | inverter_control/core/task_queue.py:14-22 | a new task keeps its four arguments, has no retry and no error, and has priority 1 |
| TaskQueue.MarkRetry | inverter_control/core/task_queue.py:31-36 | marking a retry adds exactly one retry, records the error and lowers the priority to 2; the task's identity and completion fields stay the same |
| TaskQueue.RetryStaysUnderCeiling | inverter_control/core/task_queue.py:27-29 | a retry is granted only below the ceiling, so it never pushes a task past it; a refused task sits exactly at the ceiling |
| TaskQueue.Completed | inverter_control/core/task_queue.py:87-93 | completion records the status and the message and changes nothing else of the task |
| TaskQueue.SumRetriesBound | inverter_control/core/task_queue.py:108 | when every task is under the ceiling, the summed retries of n tasks are at most n times the ceiling |
| TaskQueue.NextBatch | inverter_control/core/task_queue.py:57-72 | a batch holds min(n, tasks pending) tasks, where a negative size counts as zero |
| TaskQueue.NextBatchSplits | inverter_control/core/task_queue.py:60-72 | the batch followed by the remaining primary and retry lanes is exactly the primary lane followed by the retry lane, in order |
| TaskQueue.NextBatchFront | inverter_control/core/task_queue.py:62-70 | the batch takes from the front of each lane, and it touches the retry lane only after the primary lane is empty |
| TaskQueue.NextBatchPermutes | inverter_control/core/task_queue.py:57-72 | taking a batch loses no task and creates none: as a multiset, the batch plus the remaining lanes equal the lanes before |
| TaskQueue.SmartTaskQueue.constructor | inverter_control/core/task_queue.py:41-46 | a new queue has four empty lists and keeps the retry ceiling it was given |
| TaskQueue.SmartTaskQueue.AddTasks | inverter_control/core/task_queue.py:50-55 | the tasks are appended to the primary lane in order, and the other lists are unchanged |
| TaskQueue.SmartTaskQueue.GetNextBatch | inverter_control/core/task_queue.py:57-72 | the batch returned and the lanes left behind are those of `NextBatch`; the finished lists are unchanged and the retry ceiling still holds |
| TaskQueue.SmartTaskQueue.TakePrimary | inverter_control/core/task_queue.py:62-64 | the first loop moves the first min(n, length) tasks of the primary lane into the batch |
| TaskQueue.SmartTaskQueue.TakeRetry | inverter_control/core/task_queue.py:66-70 | the second loop moves the first min(n, length) tasks of the retry lane into the batch |
| TaskQueue.SmartTaskQueue.AddToRetryQueue | inverter_control/core/task_queue.py:74-85 | the result is `should_retry`; if true, the task with one more retry goes to the retry lane, and if false, the unchanged task goes to the failed list |
| TaskQueue.SmartTaskQueue.MarkCompleted | inverter_control/core/task_queue.py:87-93 | exactly one completed record is appended, and the lanes and the failed list are unchanged |
| TaskQueue.SmartTaskQueue.HasPendingTasks | inverter_control/core/task_queue.py:95-98 | the result is true exactly when some lane holds a task |
| TaskQueue.SmartTaskQueue.GetStats | inverter_control/core/task_queue.py:100-109 | the five counters are the sizes of the four lists and the retries summed over the completed and failed tasks |
| TaskQueue.SmartTaskQueue.TotalRetriesBound | inverter_control/core/task_queue.py:108 | `total_retries` is at most the ceiling times the number of finished tasks |
| Controller.LoginUrl | inverter_control/core/controller.py:64-65 | the login URL always carries an http or https scheme; a URL with a scheme is unchanged, and any other URL gets `http://` in front |
| Controller.LoginUrlIdempotent | inverter_control/core/controller.py:64-65 | adding the scheme twice gives the same URL as adding it once |
| Controller.GridStatus | inverter_control/core/controller.py:131-145 | a status exists exactly when the link was found; it is the link text without surrounding whitespace and has no whitespace at either end |
| Controller.GridStatusStable | inverter_control/core/controller.py:138 | stripping a status that was already read gives the same status again |
| Controller.ExpectedAfter | inverter_control/core/controller.py:154 | ON expects "Disconnect Grid", and every other action expects "Connect Grid" |
| Controller.Decide | inverter_control/core/controller.py:149-163 | a missing or empty status fails; the target state is skipped with success; the opposite state is refused; the controller clicks in every other case, and only then |
| Controller.NeverClicksOnKnownLabel | inverter_control/core/controller.py:156-163 | for ON or OFF with either known label, the controller finishes without clicking |
| Controller.PerformGridAction | inverter_control/core/controller.py:147-191 | a decision that finishes is returned as it is; after a click, success holds exactly when the link was clickable, nothing raised and the expected text appeared |
| Controller.SkipMessageMarked | inverter_control/core/controller.py:159 | the skip message contains "BỎ QUA" |
| Controller.OppositeMessageMarked | inverter_control/core/controller.py:163 | the refusal message contains "LỖI" and "ngược lại" and does not contain "BỎ QUA" |
| Controller.OppositeHasError | inverter_control/core/controller.py:161-163 | the refusal message contains "LỖI" |
| Controller.OppositeHasOpposite | inverter_control/core/controller.py:161-163 | the refusal message contains "ngược lại" |
| Controller.OppositeNoSkip | inverter_control/core/controller.py:161-163 | the refusal for a known label does not contain "BỎ QUA" |
| CurtailmentControl.GridStatus | curtailment.py:736-768 | there is no status exactly when the link is missing, when the link lacks its status span or its icon (the child lookup raises), or when the text names no state and the icon has no `src`; a text naming "Disconnect Grid" wins; otherwise "flash_off" gives "Disconnect Grid" and "flash_on" gives "Connect Grid"; any other result is the stripped text |
| CurtailmentControl.TextBeforeIcon | curtailment.py:746-757 | when both children are present and the text names a state, the icon's `src` does not change the status, and a status is always given |
| CurtailmentControl.MissingChildNoStatus | curtailment.py:746-750 | a link without its status span or its icon gives no status, even when the text names a state |
| CurtailmentControl.GridStatusStable | curtailment.py:736-768 | a status shown again as the link text, with an empty icon, reads back unchanged |
| CurtailmentControl.Decide | curtailment.py:770-790 | a missing or empty status fails; an action other than ON/OFF is invalid; the controller clicks exactly from the source state, expecting a different label; every other state is reported as a skip with success |
| CurtailmentControl.ClicksWherePackageRefuses | curtailment.py:778-790 | on a known label, the script clicks exactly where the package controller refuses with its "opposite state" error |
| CurtailmentControl.SkipsWherePackageClicks | curtailment.py:787-790 | on an unrecognised status, the script reports success without clicking, while the package controller clicks |
| CurtailmentControl.SettlesOnMeans | curtailment.py:808-820 | the wait succeeds exactly when some poll among the six shows the expected label and every poll before it still shows the starting label |
| CurtailmentControl.AwaitChange | curtailment.py:808-820 | the poll loop's verdict is `SettlesOn`; it reads the status between one and six times, and every read but the last showed the starting label |
| CurtailmentControl.PerformGridAction | curtailment.py:770-852 | the result is the decision, then the missing link, the stale-element retry, the raised error, or the verdict of the poll loop |
| CurtailmentControl.SuccessMeansTargetSeen | curtailment.py:770-852 | a reported success means no click was needed, or some read after the click showed the requested state |
| CurtailmentControl.StaleSettled | curtailment.py:829-845 | a success after a stale element means the single read after the retry showed the requested state |
| CurtailmentControl.ClickSettled | curtailment.py:808-824 | a success after a normal click means the polls settled on the requested state |
| CurtailmentControl.NoClickAtTarget | curtailment.py:778-790 | in the requested state already, the action succeeds with the skip message and makes no click |
| DriverPool.CeilDiv | inverter_control/core/driver_pool.py:406 | `math.ceil(n / d)` is the smallest q with q * d >= n |
| DriverPool.OptimalPoolSize | inverter_control/core/driver_pool.py:398-416 | the pool size is never more than the number of tasks; one task gets one driver; two or three tasks get two when the bounds allow two; with sane bounds and enough tasks it lies between min and max; for more than three tasks it is enough drivers for `tasks_per_driver` tasks each unless capped, and above the minimum one driver fewer would not be enough |
| DriverPool.CeilDivSides | inverter_control/core/driver_pool.py:406 | a size at or above `ceil(n / d)` serves every task, and one driver fewer than any size at or below it does not |
| DriverPool.OptimalIsLeastCovering | inverter_control/core/driver_pool.py:398-416 | for more than three tasks and sane bounds, the size chosen is the one and only least covering size: the fewest drivers within the bounds that serve every task at `tasks_per_driver` each, or the maximum when none does |
| DriverPool.CeilDivAtMost | inverter_control/core/driver_pool.py:406 | `ceil(n / d)` never exceeds n, so the final clamp to the task count changes nothing above three tasks |
| DriverPool.ClampedIsLeastCovering | inverter_control/core/driver_pool.py:405-413 | `ceil(n / d)` clamped to the bounds is a least covering size |
| DriverPool.LeastCoveringUnique | inverter_control/core/driver_pool.py:398-416 | there is at most one least covering size |
| DriverPool.PackagePoolSizes | inverter_control/core/driver_pool.py:398-416 | with the settings (2, 8, 5): 0 tasks get 0 drivers, 1 gets 1, 2 to 10 get 2, 40 or more get 8, every size from 2 tasks up lies between 2 and 8, and above three tasks the size is the least covering one |
| DriverPool.GetDriverPath | inverter_control/core/driver_pool.py:105-122 | a configured path that exists wins; otherwise the driver file of chrome, edge or firefox, with `.exe` on Windows; "" for any other browser |
| DriverPool.CreateDriverRobust | inverter_control/core/driver_pool.py:125-173 | at most three attempts; an unsupported browser gives up after the first; success comes from the first attempt that works, after every earlier one failed; the waits between attempts are 1 s, then 2 s |
| DriverPool.CreatedIdsMembers | inverter_control/core/driver_pool.py:375-384 | a creation call in the range adds a driver exactly when one of its attempts works |
| DriverPool.Drain | inverter_control/core/driver_pool.py:528-536 | the non-blocking acquire, applied n times, leaves max(0, permits - n) permits |
| DriverPool.CountQuitOk | inverter_control/core/driver_pool.py:528-538 | the count of drivers whose `quit()` succeeds is at most the number of drivers, and is all of them when every quit succeeds |
| DriverPool.DynamicDriverPool.constructor | inverter_control/core/driver_pool.py:41-51 | a new pool is empty and uninitialised, with a zero semaphore and no creation calls yet |
| DriverPool.DynamicDriverPool.NewDriver | inverter_control/core/driver_pool.py:125-173 | one creation call: a new driver exactly when one of the call's attempts works |
| DriverPool.DynamicDriverPool.InitializePool | inverter_control/core/driver_pool.py:362-396 | an initialised pool is left alone and reports success; otherwise the optimal size gives that many creation calls; every driver made joins the idle FIFO with one permit; success (and the initialised flag) means at least one driver was made; the pool invariant is kept |
| DriverPool.DynamicDriverPool.FillPool | inverter_control/core/driver_pool.py:375-384 | count creation calls append the drivers made to the idle FIFO in order, one permit each |
| DriverPool.DynamicDriverPool.GetDriver | inverter_control/core/driver_pool.py:418-444 | an uninitialised pool, a zero semaphore or an empty FIFO gives no driver and changes nothing; otherwise the front driver is handed out, and it leaves the FIFO, joins `in_use` and takes one permit |
| DriverPool.DynamicDriverPool.ReturnDriver | inverter_control/core/driver_pool.py:446-506 | `None` changes nothing; an uninitialised pool only quits the driver; a driver that fails the health probe or the reset is quit and replaced by one creation call, and it stays in `in_use`; a healthy driver leaves `in_use` and goes to the back of the FIFO with one more permit |
| DriverPool.DynamicDriverPool.ReplaceDriver | inverter_control/core/driver_pool.py:468-476 | the replacement is one creation call; a driver made joins the FIFO with one permit |
| DriverPool.DynamicDriverPool.Cleanup | inverter_control/core/driver_pool.py:518-551 | an uninitialised pool is untouched; otherwise every idle driver and every handed-out driver is quit exactly once, both collections are emptied, and a permit is taken back only for an idle driver whose quit succeeded |
| DriverPool.DynamicDriverPool.CloseIdle | inverter_control/core/driver_pool.py:527-538 | the first loop empties the FIFO, quits each idle driver and drains one permit per successful quit |
| DriverPool.DynamicDriverPool.CloseInUse | inverter_control/core/driver_pool.py:540-548 | the second loop quits every handed-out driver once and clears `in_use` |
| DriverPool.DynamicDriverPool.EmergencyRecovery | inverter_control/core/driver_pool.py:565-588 | recovery is cleanup followed by min_pool_size creation calls; success means at least one driver was made |
| DriverPool.DynamicDriverPool.Rebuild | inverter_control/core/driver_pool.py:572-588 | the pool size becomes min_pool_size, that many creation calls are made, and the pool is initialised exactly when one succeeded |
| DriverPool.AppendFreshKeepsValid | inverter_control/core/driver_pool.py:375-380 | drivers made by later calls are new, so appending them keeps the FIFO free of duplicates and apart from `in_use` |
| TaskProcessor.Classify | inverter_control/processors/task_processor.py:79-92 | a controller result is SUCCESS exactly when it succeeded or its message holds "BỎ QUA"; it is FAILED exactly when it failed without "BỎ QUA" and its message holds both "LỖI" and "ngược lại"; RETRY otherwise; never SKIPPED |
| TaskProcessor.SingleOutcome | inverter_control/processors/task_processor.py:53-103 | SKIPPED exactly for an ON request to a FAULTY inverter; RETRY when no driver is lent, when the browser raises or when login fails; otherwise the classified controller result with its message |
| TaskProcessor.OppositeStateFails | inverter_control/processors/task_processor.py:87-88 | a request for the state opposite to the inverter's current one is classified FAILED, so it is never retried |
| TaskProcessor.AlreadyThereSucceeds | inverter_control/processors/task_processor.py:84-85 | a request for the state the inverter is already in is a SUCCESS carrying the skip message |
| TaskProcessor.FinalOnlyAfterAction | inverter_control/processors/task_processor.py:58-94 | an outcome of SUCCESS or FAILED means a driver was lent, nothing raised, the login worked and the inverter was not a FAULTY ON request |
| TaskProcessor.Route | inverter_control/processors/task_processor.py:200-213 | SUCCESS and SKIPPED go to completed, FAILED goes to completed as a failure, RETRY is requeued exactly when a retry is left and is given up otherwise; only a requeue bumps the retry count, recording the message as the error |
| TaskProcessor.ApplyRoutes | inverter_control/processors/task_processor.py:195-213 | routing a batch leaves the primary lane alone and appends each share to the retry lane, the completed list and the failed list in batch order |
| TaskProcessor.TallyCountsEach | inverter_control/processors/task_processor.py:177-213 | each batch task bumps exactly one of completed, retried and failed; retried equals the number requeued |
| TaskProcessor.PartsUnder | inverter_control/processors/task_processor.py:206-210 | routing never puts a task over the retry ceiling |
| TaskProcessor.BatchRoutedUnder | inverter_control/processors/task_processor.py:195-213 | routing a batch under the ceiling keeps all three destinations under it |
| TaskProcessor.RoutingPartitions | inverter_control/processors/task_processor.py:195-213 | routing loses no task and creates none: the three destinations together hold exactly the batch's tasks |
| TaskProcessor.RequeueLightens | inverter_control/processors/task_processor.py:206-210 | the requeued tasks weigh at least one less per batch task than the batch did, so the main loop cannot run for ever |
| TaskProcessor.FinalResults | inverter_control/processors/task_processor.py:262-272 | one row per completed task with its recorded status and message, then one FAILED row per given-up task with "Vượt quá số lần retry: " and its last error |
| TaskProcessor.FinalResultsNames | inverter_control/processors/task_processor.py:262-272 | the rows name the finished tasks once each, in the order completed then failed |
| TaskProcessor.FinalRoute | inverter_control/processors/task_processor.py:248-253 | in the final pass, SUCCESS and SKIPPED keep their status and every other outcome is completed as FAILED; the identity and the retry count are kept |
| TaskProcessor.FinalRoutesUnder | inverter_control/processors/task_processor.py:243-253 | the final pass keeps every task's retry count under the ceiling |
| TaskProcessor.FinalRoutesBag | inverter_control/processors/task_processor.py:243-253 | the final pass completes exactly the tasks it drew |
| TaskProcessor.FinalTallyCounts | inverter_control/processors/task_processor.py:232-253 | the final pass counts the good outcomes completed and all others failed, and retries none |
| TaskProcessor.RouteOutcome | inverter_control/processors/task_processor.py:200-213 | one outcome changes the queue by its route and bumps the matching counter |
| TaskProcessor.FinishOutcome | inverter_control/processors/task_processor.py:248-253 | one final-pass outcome appends one completed task and bumps completed or failed |
| TaskProcessor.TaskProcessor.constructor | inverter_control/processors/task_processor.py:18-21 | a new processor has an empty queue with the retry ceiling 2 and an uninitialised pool with the package pool settings |
| TaskProcessor.TaskProcessor.ProcessSingleInverter | inverter_control/processors/task_processor.py:53-103 | the outcome is `SingleOutcome` for whether the pool lends a driver; a lent driver is always given back, including on error paths, and otherwise the pool is untouched |
| TaskProcessor.TaskProcessor.HandleTask | inverter_control/processors/task_processor.py:195-213 | one batch task: its outcome is one the browser allows, and the queue and the counters change by its route |
| TaskProcessor.TaskProcessor.ProcessBatch | inverter_control/processors/task_processor.py:175-222 | the batch is the next `max_workers` tasks; the queue afterwards is the drawn lanes with every route applied in batch order; the counters are the tally of those routes; the retry ceiling holds |
| TaskProcessor.TaskProcessor.RunTasks | inverter_control/processors/task_processor.py:187-220 | the worker loop applies each task's route and counter, in batch order |
| TaskProcessor.TaskProcessor.HandleFinal | inverter_control/processors/task_processor.py:243-253 | one final-pass task: an outcome the browser allows, one completed task and one counter |
| TaskProcessor.TaskProcessor.ProcessFinalRetry | inverter_control/processors/task_processor.py:224-260 | an empty retry lane does nothing; otherwise it draws as many tasks as the retry lane holds and completes each, with nothing requeued; the counters are the good and the other outcomes; the retry ceiling holds |
| TaskProcessor.TaskProcessor.RunFinal | inverter_control/processors/task_processor.py:235-258 | the final worker loop completes each drawn task in order and counts its outcome |
| TaskProcessor.TaskProcessor.RunBatches | inverter_control/processors/task_processor.py:141-159 | the main loop ends with the primary lane empty and fewer than three retries left, without losing or adding a task |
| TaskProcessor.TaskProcessor.RunParallelOptimized | inverter_control/processors/task_processor.py:105-173 | with no task or no driver the result is empty and the queue is untouched; otherwise both lanes end empty, every prepared task ends completed or failed, the result is one row per finished task, and the pool is cleaned up on every path |
| TaskProcessor.TaskProcessor.RunQueued | inverter_control/processors/task_processor.py:134-169 | queueing, the batches and the final pass leave both lanes empty and every queued task completed or failed exactly once |
| TaskProcessor.FreshTasksUnder | inverter_control/processors/task_processor.py:23-51 | prepared tasks are new, so they start under the retry ceiling |
| TaskProcessor.BatchKeepsCensus | inverter_control/processors/task_processor.py:175-222 | one batch moves tasks between lanes and lists without losing or adding any |
| TaskProcessor.BatchLightens | inverter_control/processors/task_processor.py:141-159 | every non-empty batch makes the pending work strictly lighter, so the main loop terminates |
| TaskProcessor.FinalCensus | inverter_control/processors/task_processor.py:224-272 | after the final pass, completed and failed together hold every task the queue held before it |
| TaskProcessor.FinalShape | inverter_control/processors/task_processor.py:224-260 | with the primary lane empty, the final pass drains the retry lane into the completed list |
| TaskProcessor.RouteLightens | inverter_control/processors/task_processor.py:206-210 | a routed task weighs at least one less in the retry lane than it did in the batch, so the batch loop ends |
| TaskProcessor.BatchUnder | inverter_control/processors/task_processor.py:180 | a batch drawn from lanes within the retry ceiling is within it too |
| TaskProcessor.DrawnUnder | inverter_control/processors/task_processor.py:180 | so are the lanes the batch leaves behind |
| TaskProcessor.RoutedLanesUnder | inverter_control/processors/task_processor.py:195-220 | routing a batch within the ceiling keeps every lane and list within it |
| TaskProcessor.FinishUnder | inverter_control/processors/task_processor.py:243-258 | the final pass keeps every lane and list within the ceiling |
| TaskProcessor.DrainAll | inverter_control/processors/task_processor.py:236 | with the primary lane empty, drawing as many tasks as the retry lane holds takes exactly the retry lane and empties it |
| TaskProcessor.NothingDrawn | inverter_control/processors/task_processor.py:227-228 | with the retry lane empty, the final pass draws, completes and counts nothing |
| KeySort.SortByKey | inverter_control/processors/task_processor.py:35 | `sorted(inverters.items())` is a permutation of the pairs with keys in ascending order |
| Inventory.Quota | inverter_control/processors/task_processor.py:38-40 | a station gives at most `count` and at most all of its inverters; none when count <= 0; all of them when count is at least their number |
| Inventory.StationTasks | inverter_control/processors/task_processor.py:35-48 | a requested station contributes exactly `Quota(count, inverters)` tasks |
| Inventory.StationTasksSmallestFirst | inverter_control/processors/task_processor.py:35-48 | a station's tasks are its inverters with the smallest names, in ascending order, each task named "station-inverter" and carrying the station's action |
| Inventory.PreparedTasksRequested | inverter_control/processors/task_processor.py:23-51 | every prepared task is new and belongs to a requested station, with that station's action |
| Inventory.NoRequestsNoTasks | inverter_control/processors/task_processor.py:23-51 | without requests, no task is prepared |
| Inventory.PrepareTasks | inverter_control/processors/task_processor.py:23-51 | the zone loop returns the prepared tasks in zone and station order, and `total_inverters` equals their number |
| Inventory.AddZone | inverter_control/processors/task_processor.py:29-49 | the station loop of one zone adds the tasks of its requested stations in station order |
| Inventory.AddStation | inverter_control/processors/task_processor.py:35-48 | the inverter loop adds the station's tasks for the first `count` inverters in name order, then stops |
| CurtailmentProcessor.ScriptPoolSizes | curtailment.py:477-491 | with the script's settings (at least 1, at most 8 drivers, 4 tasks per driver) one task gets 1 driver, two or three get 2, four get 1, five get 2, any task count gets between 1 and 8, 29 or more get 8, and above three tasks the size is the least covering one |
| CurtailmentProcessor.OneShotCreation | curtailment.py:493-525 | the script's driver creation makes a single attempt: creation call k works exactly when the browser starts on that call |
| CurtailmentProcessor.BatchLimit | curtailment.py:1071-1075 | a batch is at most max_workers and at most two more than the idle drivers, equals one of the two, and is at least 1 when max_workers is |
| CurtailmentProcessor.Classify | curtailment.py:918-927 | the script knows only SUCCESS and RETRY; SUCCESS exactly when the action succeeded or its message carries the skip marker |
| CurtailmentProcessor.ClassifyBesidePackage | curtailment.py:918-927 | the script's classification is the package's with FAILED turned into RETRY |
| CurtailmentProcessor.RetriesWhatPackageRefuses | curtailment.py:918-927 | a refusal on an inverter in the opposite state is FAILED for the package and RETRY for the script |
| CurtailmentProcessor.SingleOutcome | curtailment.py:896-934 | no driver gives RETRY "no driver", an escaped error gives RETRY with the error-prefixed text, a failed login gives RETRY "login failed", otherwise the action's message with its classification; never FAILED |
| CurtailmentProcessor.AlreadyThereSucceeds | curtailment.py:915-923 | an inverter already in the requested state ends as SUCCESS with the skip message, without a click |
| CurtailmentProcessor.SuccessOnlyAfterAction | curtailment.py:903-929 | a SUCCESS implies a lent driver, no escaped error and a successful login |
| CurtailmentProcessor.GivenUpRecordedTwice | curtailment.py:988-992 | a RETRY of a task with no retry left adds it to the failed list and also completes it as FAILED with the same message |
| CurtailmentProcessor.SingleAsBatch | curtailment.py:985-992 | for a task that may still be retried, the single-task routing equals routing a batch of one |
| CurtailmentProcessor.DrawnFromPrimary | curtailment.py:383-392 | drawing no more than the primary lane holds returns its first n tasks and leaves the retry lane and the result lists alone |
| CurtailmentProcessor.QueuedThenDrawn | curtailment.py:959-964 | tasks added behind an empty primary lane and drawn by their count come back exactly, leaving the lanes as before |
| CurtailmentProcessor.NothingToDraw | curtailment.py:1077-1080 | an empty draw leaves every lane unchanged |
| CurtailmentProcessor.RoutedNewTasks | curtailment.py:959-1037 | routing new tasks keeps the primary lane empty, adds the tasks to the census, and every task not requeued is reported once |
| CurtailmentProcessor.RouteSingle | curtailment.py:985-994 | the queue takes the single-task step (complete, requeue, or fail and complete as FAILED); the count is 1 for SUCCESS, else 0; queue validity is kept for a task within its retries |
| CurtailmentProcessor.ScriptProcessor.constructor | curtailment.py:858-866 | a fresh empty valid queue, a fresh uninitialised valid pool with the script's settings and one-shot creation |
| CurtailmentProcessor.ScriptProcessor.ProcessSingleInverter | curtailment.py:896-937 | the outcome is SingleOutcome of the task; without a driver the pool is untouched; after login the driver goes back to the pool, and when an error escapes it does not; pool validity is kept |
| CurtailmentProcessor.ScriptProcessor.ProcessSingleTask | curtailment.py:974-1001 | draws one task; with none nothing changes and the count is 0; otherwise the lanes take SingleStep with a possible outcome and the count is 1 exactly on SUCCESS |
| CurtailmentProcessor.ScriptProcessor.ProcessFewTasks | curtailment.py:1003-1037 | draws up to the given number of tasks and routes each possible outcome as a batch does; the count is the batch's completed tally |
| CurtailmentProcessor.ScriptProcessor.HandleTask | curtailment.py:1090-1112 | one task: a possible outcome, routed by Route, bumping exactly the matching counter |
| CurtailmentProcessor.ScriptProcessor.RunTasks | curtailment.py:1084-1112 | every task of the batch in order: the lanes take all the routes and the stats are their tally |
| CurtailmentProcessor.ScriptProcessor.ProcessBatchWithLimits | curtailment.py:1068-1114 | draws BatchLimit(8, idle drivers) tasks, routes every outcome, and the stats are the tally of the routes |
| CurtailmentProcessor.ScriptProcessor.RunBatches | curtailment.py:1045-1061 | ends with an empty primary lane and fewer than two retries, with the census of tasks unchanged |
| CurtailmentProcessor.ScriptProcessor.HandleFinal | curtailment.py:1126-1140 | one final task: a possible outcome, completed as it is or as FAILED, bumping completed or failed |
| CurtailmentProcessor.ScriptProcessor.ProcessFinalRetry | curtailment.py:1116-1142 | drains the retry lane and completes every task, nothing requeued; completed counts SUCCESS outcomes, failed the rest |
| CurtailmentProcessor.ScriptProcessor.RunFinal | curtailment.py:1126-1140 | every drained task in order: the lanes take the final routes, with completed and failed counted |
| CurtailmentProcessor.ScriptProcessor.ProcessManyTasks | curtailment.py:1039-1066 | both lanes end empty and the completed and failed lists together hold exactly the tasks the lanes held |
| CurtailmentProcessor.ScriptProcessor.RunStrategy | curtailment.py:959-966 | with more than three tasks every queued and new task ends in a result list; with fewer, each task is routed once as a batch |
| CurtailmentProcessor.ScriptProcessor.RunSingle | curtailment.py:961-962 | one new task on an empty primary lane is routed exactly as a batch of one |
| CurtailmentProcessor.ScriptProcessor.RunFew | curtailment.py:963-964 | two or three new tasks on an empty primary lane are routed exactly as one batch |
| CurtailmentProcessor.ScriptProcessor.RunParallelOptimized | curtailment.py:939-972 | no tasks, or a pool that starts no driver: empty result and nothing changed; otherwise the result is the final rows of the result lists, the pool is cleaned up, every task ends in a list (more than three) or the new tasks join the census (up to three) |
| CurtailmentProcessor.FreshTasks | curtailment.py:867-894 | every prepared task starts with no retries |
| ZoneB.FullUrl | curtailment_zone_b.py:49-52 | the URL always starts with a scheme; one already starting with http:// or https:// is kept, any other gets http:// in front |
| ZoneB.FullUrlAsPackage | curtailment_zone_b.py:49-52 | the zone B script builds the same URL as the package's login |
| ZoneB.Failure | curtailment_zone_b.py:106-110 | a failure is false with a message starting with the error marker |
| ZoneB.TurnOnGrid | curtailment_zone_b.py:78-110 | success exactly when nothing raises and the link shows "Disconnect Grid", or shows "Connect Grid" and then "Disconnect Grid" after the double click; "Disconnect Grid" gives the skip message; every failure message starts with the error marker |
| ZoneB.TurnOffGrid | curtailment_zone_b.py:114-146 | the same with the labels exchanged: success exactly when the link ends on "Connect Grid" with no error; "Connect Grid" gives the skip message; every failure carries the error marker |
| ZoneB.StripSwapped | curtailment_zone_b.py:87 | exchanging the two labels of a stripped text gives a text that stripping leaves alone |
| ZoneB.TurnOffMirrorsTurnOn | curtailment_zone_b.py:114-146 | turning off succeeds exactly where turning on succeeds on the screen with both labels exchanged |
| ZoneB.UnknownTextFailsHere | curtailment_zone_b.py:106-107 | on a text that is neither label both actions fail here, while curtailment.py treats the same text as a skip |
| ZoneB.StepAt | curtailment_zone_b.py:174-199 | an inverter either counts or adds exactly one error line, never both |
| ZoneB.RunFromBounded | curtailment_zone_b.py:165-199 | the count never falls and, starting within the requested count, never passes it |
| ZoneB.RunFromVisits | curtailment_zone_b.py:165-199 | every visited inverter counts or logs one line; unless the requested count was reached, every inverter was visited |
| ZoneB.NothingRequested | curtailment_zone_b.py:169-172 | a zero or negative count visits no inverter, counts nothing and logs nothing |
| ZoneB.ErrorLog.constructor | curtailment_zone_b.py:255 | the log starts empty |
| ZoneB.ErrorLog.Append | curtailment_zone_b.py:194 | one line is added at the end |
| ZoneB.VisitInverter | curtailment_zone_b.py:174-199 | logs in and acts; counted and the lines added to the log are those of StepAt |
| ZoneB.ControlStationByCount | curtailment_zone_b.py:150-201 | an action other than ON or OFF visits nothing and logs nothing; otherwise the count and the log lines are RunFrom over the inverters in name order |
| ZoneB.VisitInOrder | curtailment_zone_b.py:165-199 | the loop's count and added log lines equal RunFrom from the first inverter |
| ZoneB.VisitNext | curtailment_zone_b.py:169-199 | one turn keeps the final count and moves the inverter's log line, if any, from the pending lines to the written log |
| ExcelReader.Missing | inverter_control/config/excel_reader.py:77 | the missing names are exactly the required names absent from the present ones |
| ExcelReader.CheckExcelFile | inverter_control/config/excel_reader.py:44-68 | true exactly when the file exists, its sheet names could be read, and both Stations and Control_Scenarios are among them |
| ExcelReader.ReadStations | inverter_control/config/excel_reader.py:70-111 | None exactly when the sheet cannot be read or lacks one of Zone, Station, Inverter, URL, Status; otherwise the rows folded in order |
| ExcelReader.AddStationRowLookup | inverter_control/config/excel_reader.py:94-104 | one row sets its own zone/station/inverter entry to its url, info and status and leaves every other entry as it was |
| ExcelReader.LaterRowWins | inverter_control/config/excel_reader.py:86-104 | every inverter holds what the last row naming it says, and no inverter is present that no row names |
| ExcelReader.ReadStationsConfig | inverter_control/config/excel_reader.py:70-111 | the loop over the rows builds exactly ReadStations of the sheet |
| ExcelReader.ScenarioFor | inverter_control/config/excel_reader.py:137-144 | OFF files under the turn-off scenario, ON under the turn-on scenario, anything else under none |
| ExcelReader.ReadScenarios | inverter_control/config/excel_reader.py:113-156 | empty exactly when the sheet cannot be read or lacks Station, Action or Count; otherwise the rows folded in order |
| ExcelReader.ScenarioKeys | inverter_control/config/excel_reader.py:127-130 | whatever the rows, the result has exactly the two scenarios, turn-off first |
| ExcelReader.AddScenarioRowFiled | inverter_control/config/excel_reader.py:137-149 | an OFF or ON row sets its station in its own scenario only; a row with another action changes nothing |
| ExcelReader.LaterScenarioRowWins | inverter_control/config/excel_reader.py:132-149 | in each scenario a station holds the request of the last row for it with that action |
| ExcelReader.ReadControlScenarios | inverter_control/config/excel_reader.py:113-156 | the loop over the rows builds exactly ReadScenarios of the sheet |
| ExcelReader.NonEmpty | inverter_control/config/excel_reader.py:169 | keeping the scenarios with requests never adds scenarios |
| ExcelReader.MenuSize | inverter_control/config/excel_reader.py:165-175 | the menu has one entry per scenario with requests |
| ExcelReader.MenuAt | inverter_control/config/excel_reader.py:165-175 | entry j of the menu is the j-th scenario with requests, under the key j+1 |
| ExcelReader.MenuKeysUnique | inverter_control/config/excel_reader.py:170 | no two menu entries share a key |
| ExcelReader.MenuOfSheet | inverter_control/config/excel_reader.py:158-177 | the menu has at most two entries, and none when the scenarios could not be read |
| ExcelReader.GetAvailableScenarios | inverter_control/config/excel_reader.py:158-177 | the loop with its index counter builds exactly the menu of the sheet's scenarios |
| ExcelReader.StationInFirst | inverter_control/config/excel_reader.py:186-203 | a station is found exactly when some zone has it, and what is found is the station of the first such zone |
| ExcelReader.ValidateErrors | inverter_control/config/excel_reader.py:184-206 | at most one error per request, and no errors exactly when every station exists and every action is ON or OFF |
| ExcelReader.ValidateWarnings | inverter_control/config/excel_reader.py:184-203 | at most one warning per request, and no warnings exactly when no found station has fewer inverters than requested |
| ExcelReader.ValidateScenarioWithSystem | inverter_control/config/excel_reader.py:179-208 | the loop's errors and warnings are exactly Validate of the requests, in request order |
| ExcelReader.CheckStation | inverter_control/config/excel_reader.py:185-206 | the search over the zones gives exactly the errors and warnings of CheckRequest |
| SystemChecker.Positions | inverter_control/utils/system_checker.py:81-82 | each operator's position is its first occurrence in the requirement, -1 when absent |
| SystemChecker.EligibleOnes | inverter_control/utils/system_checker.py:84 | each operator's flag says whether it occurs and passes the bracket rule |
| SystemChecker.Scan | inverter_control/utils/system_checker.py:81-86 | the operator found, if any, is among those scanned and is eligible |
| SystemChecker.ScanIffEligible | inverter_control/utils/system_checker.py:81-88 | the scan finds an operator exactly when some operator is eligible |
| SystemChecker.ScanIsEarliest | inverter_control/utils/system_checker.py:84-86 | the operator found occurs no later than any eligible one, the earlier in the list on a tie |
| SystemChecker.Chosen | inverter_control/utils/system_checker.py:75-88 | the operator settled on is one of the seven and is eligible |
| SystemChecker.SpecParts | inverter_control/utils/system_checker.py:88-110 | a name that still has '[' after the split has no ']' left in it |
| SystemChecker.ParsePackageSpec | inverter_control/utils/system_checker.py:70-110 | the method's name and version spec are exactly ParseSpec of the requirement |
| SystemChecker.ScanOperators | inverter_control/utils/system_checker.py:77-86 | the loop over the operators settles on exactly the chosen operator |
| SystemChecker.ParsedVersionIff | inverter_control/utils/system_checker.py:88-96 | a requirement gets a version spec exactly when some operator is eligible in it |
| SystemChecker.ParsedVersionLead | inverter_control/utils/system_checker.py:91-108 | the version spec starts with the chosen operator, with ">=" in place of "~=" |
| SystemChecker.BracketBlocks | inverter_control/utils/system_checker.py:84 | under the code's rule a '[' blocks every operator whose first character occurs only after it |
| SystemChecker.ExtrasBlockOperator | inverter_control/utils/system_checker.py:84 | no operator of "name[extras]..." passes the code's rule when the name holds no operator character |
| SystemChecker.ExtrasDropVersion | inverter_control/utils/system_checker.py:70-110 | as written, every "name[extras]spec" with a plain name gets no version spec |
| SystemChecker.ExtrasChooseEquals | inverter_control/utils/system_checker.py:81-86 | with the operator looked for outside the brackets, "==" is chosen in "name[extras]==version" |
| SystemChecker.ExtrasKeepVersion | inverter_control/utils/system_checker.py:70-110 | with the corrected rule, "name[extras]==version" gives the name and "==version", as the docstring's example says |
| SystemChecker.BracketFreeAgree | inverter_control/utils/system_checker.py:84 | on a requirement without '[' the code's rule and the corrected one give the same result |
| SystemChecker.DigitsOf | inverter_control/utils/system_checker.py:227 | the kept text is all digits, no longer than the field, and empty exactly when the field has no digit |
| SystemChecker.DigitsOfDigits | inverter_control/utils/system_checker.py:227 | a field made of digits is kept whole |
| SystemChecker.PartsOf | inverter_control/utils/system_checker.py:224-230 | there are at most as many components as fields |
| SystemChecker.ParseVersion | inverter_control/utils/system_checker.py:224-230 | the loop builds exactly VersionParts of the version |
| SystemChecker.CompareFrom | inverter_control/utils/system_checker.py:236-245 | the result is -1, 0 or 1 |
| SystemChecker.SimpleVersionCompare | inverter_control/utils/system_checker.py:220-245 | the method gives exactly SimpleCompare of the two versions |
| SystemChecker.CompareParts | inverter_control/utils/system_checker.py:236-245 | the loop with its early returns gives exactly CompareFrom from the first component |
| SystemChecker.CompareZeroIff | inverter_control/utils/system_checker.py:236-245 | 0 exactly when every component agrees, missing ones counting as 0 |
| SystemChecker.CompareAntisymmetric | inverter_control/utils/system_checker.py:236-245 | swapping the two versions negates the result |
| SystemChecker.CompareLessIff | inverter_control/utils/system_checker.py:236-245 | -1 exactly when the first differing component of the first version is the smaller one |
| SystemChecker.SimpleCompareReflexive | inverter_control/utils/system_checker.py:220-245 | every version compares equal to itself |
| SystemChecker.SimpleCompareAntisymmetric | inverter_control/utils/system_checker.py:220-245 | swapping the versions negates the comparison |
| SystemChecker.ZeroFieldAppended | inverter_control/utils/system_checker.py:224-230 | a ".0" field appended to a version adds a 0 component |
| SystemChecker.TrailingZeroEqual | inverter_control/utils/system_checker.py:236-245 | a version and the same version with ".0" appended compare equal |
| SystemChecker.OnePointZeroEqualsOne | inverter_control/utils/system_checker.py:236-245 | "1.0" compares equal to "1" |
| SystemChecker.CheckVersionCompatibility | inverter_control/utils/system_checker.py:190-218 | compatible only for a known installed version (not None, "" or "unknown") |
| SystemChecker.FallbackAcceptsOthers | inverter_control/utils/system_checker.py:212-214 | without the packaging library every spec not starting with ">=" is accepted for a known version |
| SystemChecker.FallbackAcceptsSelf | inverter_control/utils/system_checker.py:208-211 | without the packaging library ">=" followed by a version accepts that version itself |
| SystemChecker.FallbackAtLeast | inverter_control/utils/system_checker.py:208-211 | without the packaging library ">=v" rejects exactly the versions that compare below v |
| SystemChecker.Lookup | inverter_control/utils/system_checker.py:61 | a value found is the one stored under the key |
| SystemChecker.LineEntryUnder | inverter_control/utils/system_checker.py:48-59 | a line gives an entry only when it is not blank, not a comment and not an option; the entry's name is not empty, and the entry is the parse, under the given bracket rule, of the stripped text before the first '#' (`LineEntry`, which the loader uses, is this under the code's rule) |
| SystemChecker.LoaderDropsExtrasVersion | inverter_control/utils/system_checker.py:48-59 | the loader as written reads the line "name[extras]==version" as the package with no version spec |
| SystemChecker.IntendedLoaderKeepsVersion | inverter_control/utils/system_checker.py:70-74 | read with the operator looked for outside the brackets, the same line gives the package and its "==version" spec, as the docstring promises |
| SystemChecker.LoadRequirementsFromFile | inverter_control/utils/system_checker.py:35-68 | the loop builds exactly LoadRequirements of the file, each line read with the code's bracket rule, and the defaults when the file cannot be read |
| SystemChecker.ReadLine | inverter_control/utils/system_checker.py:48-61 | one pass adds exactly the line's entry under the code's bracket rule: a spec replaces the one held, no spec keeps it |
| SystemChecker.Entries | inverter_control/utils/system_checker.py:47-59 | one entry per line, each the line's own |
| SystemChecker.FoldIsEntriesFold | inverter_control/utils/system_checker.py:47-61 | reading the lines is folding their entries |
| SystemChecker.LastSpec | inverter_control/utils/system_checker.py:61 | a spec kept is non-empty and comes from an entry for that package |
| SystemChecker.EntriesKeepLastSpec | inverter_control/utils/system_checker.py:61 | a package is present exactly when some entry names it, holding the spec of its last entry that has one |
| SystemChecker.LoaderKeepsLastSpec | inverter_control/utils/system_checker.py:47-61 | a later line with a spec overrides, a later line without one keeps the earlier spec, and packages no line names are absent |
| SystemChecker.LoadedUnique | inverter_control/utils/system_checker.py:43-61 | the requirements read never name a package twice |
| SystemChecker.CommentDropped | inverter_control/utils/system_checker.py:54 | an inline '#' comment does not change what a line gives |
| SystemChecker.ToInstallIff | inverter_control/utils/system_checker.py:250-270 | a package is listed, with its spec, exactly when it is required and either not installed or installed at a version its spec rejects |
| SystemChecker.FailedNames | inverter_control/utils/system_checker.py:434-435 | no more failed names than records |
| SystemChecker.NoFailedNames | inverter_control/utils/system_checker.py:427-435 | no name is listed as failed exactly when every record passed |
| SystemChecker.FailedNamesAppend | inverter_control/utils/system_checker.py:427-435 | the failed names of records added one after the other are the failed names of each part in order |
| SystemChecker.PackageRecord | inverter_control/utils/system_checker.py:163-186 | the record is named "Package: " and the package, and passes exactly when the package does not need installing |
| SystemChecker.PackageRecords | inverter_control/utils/system_checker.py:162-186 | one record per required package |
| SystemChecker.PackageRecordAt | inverter_control/utils/system_checker.py:162-186 | the record of each required package is at its place |
| SystemChecker.RequiredRecords | inverter_control/utils/system_checker.py:155-159 | at least one record: a failure is recorded when nothing is required |
| SystemChecker.RecordedVersion | inverter_control/utils/system_checker.py:165-183 | after the check each required package's stored version is its installed one, None when not installed |
| SystemChecker.InstallListMatchesFailures | inverter_control/utils/system_checker.py:153-270 | after check_required_packages, get_packages_to_install lists a required package exactly when its check failed |
| SystemChecker.Checker.constructor | inverter_control/utils/system_checker.py:31-33 | no checks, no failed names, no stored versions |
| SystemChecker.Checker.AddCheck | inverter_control/utils/system_checker.py:427-435 | the result is always recorded, and its name is listed as failed exactly when its status is false |
| SystemChecker.Checker.AddChecks | inverter_control/utils/system_checker.py:456-457 | the records are appended in order and the failed names stay in step with them |
| SystemChecker.Checker.CheckPackage | inverter_control/utils/system_checker.py:163-186 | records the package's result, stores its installed version, and returns whether it passed |
| SystemChecker.Checker.CheckRequiredPackages | inverter_control/utils/system_checker.py:153-188 | one record per package of the requirements as the code reads them (one failure when none is required), the installed versions stored, true exactly when every record passed |
| SystemChecker.Checker.CheckEach | inverter_control/utils/system_checker.py:161-188 | the loop appends the records of the packages in order, stores their versions, and is true exactly when all passed |
| SystemChecker.Checker.CheckNext | inverter_control/utils/system_checker.py:162-186 | one pass extends the records and the stored versions by one package |
| SystemChecker.Checker.RunFullCheck | inverter_control/utils/system_checker.py:437-460 | the seven checks are recorded in their order, the package records built from the requirements as the code reads them, and the result is true exactly when every recorded check passed |
| SystemChecker.Checker.GetPackagesToInstall | inverter_control/utils/system_checker.py:250-270 | the loop builds exactly ToInstall of the requirements, as the code reads them, against the stored versions |
| SystemChecker.ConsiderPackage | inverter_control/utils/system_checker.py:259-268 | a package is added with its spec exactly when it needs installing |
| Helpers.Format02 | inverter_control/utils/helpers.py:25 | at least two characters; a non-negative number reads back as its own digits, a negative one as '-' and its magnitude |
| Helpers.DurationFields | inverter_control/utils/helpers.py:22-24 | hours*3600 + minutes*60 + seconds is the input, minutes and seconds in 0..59, hours non-negative for a non-negative input |
| Helpers.FieldsUnique | inverter_control/utils/helpers.py:22-24 | the split into hours, minutes below 60 and seconds below 60 is the only one |
| Helpers.FormatDurationReadsBack | inverter_control/utils/helpers.py:20-25 | a non-negative duration formats as three ':'-separated fields of at least two digits, which read back as the duration |
| Helpers.ValidateIpAddress | inverter_control/utils/helpers.py:27-38 | true exactly when the address has four '.'-separated fields, each all digits with value at most 255 |
| Helpers.LeadingZeroAccepted | inverter_control/utils/helpers.py:33-37 | an octet with a leading zero is accepted when its value is |
| Helpers.DottedAccepted | inverter_control/utils/helpers.py:27-38 | every dotted quad of numbers up to 255 is accepted, and its fields read back as those numbers |

## Left out

- Selenium is not modelled: driver construction, page waits, login steps, clicks and sleeps. Driver creation, the health probe and the reset are inputs, and the pages an inverter shows are an input.
- Threads are not modelled: `ThreadPoolExecutor`, `as_completed` order, future and semaphore timeouts, and the `active_tasks` counter. The lock only serialises operations, so batches run sequentially in batch order. Another completion order permutes the routes within a batch.
- Clocks, floating point and logging are not modelled: timestamps, progress and success percentages, average time per task, and every log or print line. `_analyze_results` (curtailment.py:1155-1190) only logs, so it is left out.
- The sleeping between driver creation attempts is not modelled. `DriverPool.CreateDriverRobust` returns the wait lengths, 2 ** attempt seconds.
- Python's `str.strip`, `str.isdigit` and `str.upper` are modelled on ASCII only. `Strip` removes the ASCII whitespace `str.isspace` accepts, the separators U+001C to U+001F included. Non-ASCII whitespace, Unicode digits and non-ASCII case mapping are not modelled.
- Excel access through pandas is not modelled. A sheet is its column names and rows, already parsed. Zone, station, inverter, URL, status and action cells are text, and `Count` is an integer. Other cell types and empty (NaN) cells are not modelled.
- `create_excel_template` is not modelled: it writes a fixed template.
- `ExcelReader.ReadControlScenarios`: the copy of the reader in curtailment.py (1286-1339) also builds a third "turn all on" scenario from the stations sheet. Only the package's reader, with two scenarios, is modelled.
- The seven system probes of `run_full_check` are not modelled beyond their results: the Python environment and version, system resources, network, browsers and webdrivers. Their records are inputs to `SystemChecker.Checker.RunFullCheck`.
- `importlib.metadata.version` is an input (`installedOf`). The `packaging` library is an input verdict function, `None` when it raises.
- `SystemChecker.SimpleVersionCompare`: the `except` fallback at system_checker.py:247-248 is left out. It fires only when `int()` rejects a character that `str.isdigit` accepts, such as a superscript digit. The ASCII model of `isdigit` cannot produce such a character.
- `get_system_resources` in helpers.py is not modelled: it reads psutil floats.
- `CurtailmentProcessor.ScriptProcessor.ProcessSingleTask`: returns 0 where the script falls off the end and returns None, after a non-SUCCESS outcome (curtailment.py:984-1001). The caller ignores the value (curtailment.py:962-972).
- `CurtailmentProcessor.ScriptProcessor.ProcessSingleTask`: the final `else` branch for a status other than SUCCESS, SKIPPED or RETRY (curtailment.py:993-994) is left out. The script's classification never produces such a status.
- `CurtailmentProcessor.ScriptProcessor.ProcessManyTasks`: the running `completed_count` is only logged by the script, so it is not returned.
- `ZoneB.ControlStationByCount`: `count_performed` is only printed by the script; the model returns it.
- `CurtailmentProcessor.ScriptProcessor.ProcessSingleInverter` states pool validity. The strategy methods above it do not carry the pool's invariant.
- `CurtailmentProcessor.OneShotCreation`: the script's `_create_driver_robust` tries once. It is modelled by the package's creation function with one attempt.
- A driver is an opaque number rather than a WebDriver object.
- `emergency_recovery` is modelled as `cleanup` followed by a rebuild. Its `time.sleep(2)` is not modelled.
- `detect_best_browser` is not modelled. The browser choice is a flag saying whether the configured browser is supported.
- The package `TaskProcessor` constructor is modelled with the configuration passed to the queue and pool constructors. The source builds `SmartTaskQueue()` and `DynamicDriverPool()` without it (inverter_control/processors/task_processor.py:19-21), which would raise.
- The interactive menus, `main` functions, launchers, environment bootstrapping and static inventory dictionaries are not modelled.

## Findings

| source | as written | input that shows it | evidently intended | confidence | as-written member | corrected member |
|---|---|---|---|---|---|---|
| inverter_control/utils/system_checker.py:84 | an operator counts only when no '[' occurs anywhere before it, so the version spec after `[extras]` is dropped | "urllib3[socks]==2.5.0" gives ("urllib3", None) | ("urllib3", "==2.5.0"), as the function's own docstring says | not executed | SystemChecker.LoaderDropsExtrasVersion | SystemChecker.IntendedLoaderKeepsVersion |

The loader, the package check and the install list model the code as
written: `LineEntry` parses with the code's rule. `ExtrasDropVersion` and
`ExtrasKeepVersion` state the two halves for `_parse_package_spec` alone.
`LineEntryUnder` with the corrected rule is the intended reading of a line.
