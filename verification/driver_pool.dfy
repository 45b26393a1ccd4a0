/**
 * The browser-session pool (`DynamicDriverPool`): a FIFO of idle drivers,
 * the set of drivers handed out, a counting semaphore and an
 * `is_initialized` flag. Drivers are opaque ids. Whether the construction
 * of a driver succeeds, whether a returned driver answers the health probe,
 * whether its reset works and whether `quit()` raises are inputs.
 *
 * The `k`-th call of `_create_driver_robust` on a pool is numbered `k`; when it
 * succeeds the driver it makes is the id `k`, so every driver is new.
 */
module DriverPool {
  import opened Wrappers

  type DriverId = nat

  /** The pool part of the configuration. */
  datatype PoolConfig = PoolConfig(minPoolSize: nat, maxPoolSize: nat, tasksPerDriver: nat)

  /** `min_pool_size`, `max_pool_size` and `tasks_per_driver` of the package settings. */
  const PackageConfig := PoolConfig(2, 8, 5)

  /** `max_retries` of `_create_driver_robust`: attempts are numbered 0 to 2. */
  const MaxCreateRetries: nat := 2

  function Min(a: int, b: int): int {
    if a <= b then a else b
  }

  function Max(a: int, b: int): int {
    if a >= b then a else b
  }

  /** `math.ceil(n / d)` on naturals. */
  function CeilDiv(n: nat, d: nat): (q: nat)
    requires d > 0
    ensures q * d >= n && (q == 0 || (q - 1) * d < n)
  {
    (n + d - 1) / d
  }

  /**
   * `_calculate_optimal_pool_size`: one driver for one task, otherwise
   * `min(2, n)` for up to three tasks and one driver per `tasksPerDriver`
   * tasks above that, clamped to the configured bounds and never more than
   * the number of tasks.
   */
  function OptimalPoolSize(n: nat, c: PoolConfig): (size: nat)
    requires c.tasksPerDriver > 0
    ensures size <= n
    ensures n == 1 ==> size == 1
    ensures 1 <= c.minPoolSize <= c.maxPoolSize && c.minPoolSize <= n ==> c.minPoolSize <= size <= c.maxPoolSize
    ensures n > 3 && size < c.maxPoolSize && size < n ==> size * c.tasksPerDriver >= n
    ensures n > 3 && size > c.minPoolSize ==> (size - 1) * c.tasksPerDriver < n
    ensures 2 <= n <= 3 && c.minPoolSize <= 2 <= c.maxPoolSize ==> size == 2
  {
    if n == 1 then 1
    else
      var calculated := if n <= 3 then Min(2, n) else CeilDiv(n, c.tasksPerDriver);
      var size := Min(Max(c.minPoolSize, Min(c.maxPoolSize, calculated)), n);
      CeilDivSides(n, c.tasksPerDriver, size);
      size
  }

  /** A size at or above `ceil(n / d)` covers `n` tasks, and one at or below it leaves a task over with one driver fewer. */
  lemma CeilDivSides(n: nat, d: nat, s: int)
    requires d > 0
    ensures s >= CeilDiv(n, d) ==> s * d >= n
    ensures s <= CeilDiv(n, d) ==> (s - 1) * d < n
  {
    var q := CeilDiv(n, d);
    if s >= q {
      MulMono(q, s, d);
    } else {
      MulMono(s - 1, q as int - 1, d);
    }
  }

  /** `s` drivers of `d` tasks each are enough for `n` tasks. */
  predicate Covers(s: nat, n: nat, d: nat) {
    s * d >= n
  }

  /**
   * The pool size the configuration asks for: within the bounds, enough
   * drivers for the tasks unless that would pass the maximum, and no
   * smaller size within the bounds would do.
   */
  predicate LeastCovering(s: nat, n: nat, c: PoolConfig) {
    c.minPoolSize <= s <= c.maxPoolSize
    && (Covers(s, n, c.tasksPerDriver) || s == c.maxPoolSize)
    && forall k: nat :: c.minPoolSize <= k < s ==> !Covers(k, n, c.tasksPerDriver)
  }

  lemma MulMono(a: int, b: int, d: nat)
    requires a <= b
    ensures a * d <= b * d
  {
    assert b * d - a * d == (b - a) * d;
  }

  /**
   * For more than three tasks and sane bounds, the size chosen is the one
   * and only least covering size: the fewest drivers within the bounds
   * that serve every task at `tasksPerDriver` tasks each, or the maximum.
   */
  lemma OptimalIsLeastCovering(n: nat, c: PoolConfig)
    requires c.tasksPerDriver > 0 && 1 <= c.minPoolSize <= c.maxPoolSize && c.minPoolSize <= n && n > 3
    ensures LeastCovering(OptimalPoolSize(n, c), n, c)
    ensures forall s: nat :: LeastCovering(s, n, c) ==> s == OptimalPoolSize(n, c)
  {
    var size := OptimalPoolSize(n, c);
    assert size == Clamped(CeilDiv(n, c.tasksPerDriver), c) by {
      CeilDivAtMost(n, c.tasksPerDriver);
    }
    ClampedIsLeastCovering(n, c);
    forall s: nat | LeastCovering(s, n, c)
      ensures s == size
    {
      LeastCoveringUnique(n, c, s, size);
    }
  }

  /** `ceil(n / d)` never exceeds `n`. */
  lemma CeilDivAtMost(n: nat, d: nat)
    requires d > 0
    ensures CeilDiv(n, d) <= n
  {
    CeilDivSides(n, d, n);
    MulMono(1, d, n);
  }

  /** `q` clamped to the configured bounds. */
  function Clamped(q: nat, c: PoolConfig): nat {
    Max(c.minPoolSize, Min(c.maxPoolSize, q))
  }

  lemma ClampedIsLeastCovering(n: nat, c: PoolConfig)
    requires c.tasksPerDriver > 0 && c.minPoolSize <= c.maxPoolSize
    ensures LeastCovering(Clamped(CeilDiv(n, c.tasksPerDriver), c), n, c)
  {
    var d := c.tasksPerDriver;
    var size := Clamped(CeilDiv(n, d), c);
    CeilDivSides(n, d, size);
    forall k: nat | c.minPoolSize <= k < size
      ensures !Covers(k, n, d)
    {
      CeilDivSides(n, d, k + 1);
    }
  }

  /** Two least covering sizes are the same size. */
  lemma LeastCoveringUnique(n: nat, c: PoolConfig, s: nat, t: nat)
    requires LeastCovering(s, n, c) && LeastCovering(t, n, c)
    ensures s == t
  {
  }

  /** With the package settings: no tasks, no drivers; then 1, 2, 2, 2; then 2 to 8. */
  lemma PackagePoolSizes(n: nat)
    ensures OptimalPoolSize(0, PackageConfig) == 0 && OptimalPoolSize(1, PackageConfig) == 1
    ensures 2 <= n ==> 2 <= OptimalPoolSize(n, PackageConfig) <= 8
    ensures 2 <= n <= 10 ==> OptimalPoolSize(n, PackageConfig) == 2
    ensures n >= 40 ==> OptimalPoolSize(n, PackageConfig) == 8
    ensures n > 3 ==> LeastCovering(OptimalPoolSize(n, PackageConfig), n, PackageConfig)
  {
    if n > 3 {
      OptimalIsLeastCovering(n, PackageConfig);
    }
  }

  /**
   * `get_driver_path`: the configured path when it is set and exists,
   * otherwise the driver's file name for the browser (`.exe` on Windows),
   * or "" for an unknown browser.
   */
  function GetDriverPath(configured: string, configuredExists: bool, browser: string, windows: bool): (path: string)
    ensures configured != "" && configuredExists ==> path == configured
    ensures !(configured != "" && configuredExists) && browser !in {"chrome", "edge", "firefox"} ==> path == ""
    ensures !(configured != "" && configuredExists) && browser in {"chrome", "edge", "firefox"} ==>
      path == DriverFile(browser) + (if windows then ".exe" else "")
  {
    if configured != "" && configuredExists then configured
    else if browser in {"chrome", "edge", "firefox"} then DriverFile(browser) + (if windows then ".exe" else "")
    else ""
  }

  function DriverFile(browser: string): string {
    if browser == "chrome" then "chromedriver"
    else if browser == "edge" then "msedgedriver"
    else "geckodriver"
  }

  /** `2 ** k` */
  function Pow2(k: nat): (p: nat)
    ensures p >= 1
  {
    if k == 0 then 1 else 2 * Pow2(k - 1)
  }

  /**
   * The attempt loop of `_create_driver_robust`. `works(a)` says whether
   * attempt `a` produced a driver; an unsupported browser type gives up at
   * once. Returns whether a driver was made, how many attempts were started
   * and the seconds slept between attempts.
   */
  method CreateDriverRobust(supported: bool, works: nat -> bool) returns (ok: bool, attempts: nat, waits: seq<nat>)
    ensures 1 <= attempts <= MaxCreateRetries + 1
    ensures !supported ==> !ok && attempts == 1
    ensures ok ==> works(attempts - 1)
    ensures forall a :: 0 <= a < attempts - 1 ==> !works(a)
    ensures supported && !ok ==> attempts == MaxCreateRetries + 1 && !works(MaxCreateRetries)
    ensures |waits| == attempts - 1 && forall i :: 0 <= i < |waits| ==> waits[i] == Pow2(i)
  {
    var attempt := 0;
    waits := [];
    while attempt < MaxCreateRetries + 1
      invariant 0 <= attempt <= MaxCreateRetries + 1
      invariant forall a :: 0 <= a < attempt ==> !works(a)
      invariant supported || attempt == 0
      invariant |waits| == Min(attempt, MaxCreateRetries) && forall i :: 0 <= i < |waits| ==> waits[i] == Pow2(i)
    {
      if !supported {
        return false, attempt + 1, waits;
      }
      if works(attempt) {
        return true, attempt + 1, waits;
      }
      if attempt < MaxCreateRetries {
        waits := waits + [Pow2(attempt)];
      }
      attempt := attempt + 1;
    }
    return false, MaxCreateRetries + 1, waits;
  }

  /** Some attempt of creation call `k` succeeds: the `CreateDriverRobust` outcome. */
  predicate CreationSucceeds(supported: bool, works: (nat, nat) -> bool, k: nat) {
    supported && (works(k, 0) || works(k, 1) || works(k, 2))
  }

  /** The ids of the drivers that creation calls `from .. from + count - 1` make, in call order. */
  function CreatedIds(supported: bool, works: (nat, nat) -> bool, from: nat, count: nat): (ids: seq<DriverId>)
    ensures |ids| <= count
    ensures forall i :: 0 <= i < |ids| ==> from <= ids[i] < from + count
    ensures forall i, j :: 0 <= i < j < |ids| ==> ids[i] < ids[j]
    decreases count
  {
    if count == 0 then []
    else
      var prefix := CreatedIds(supported, works, from, count - 1);
      if CreationSucceeds(supported, works, from + count - 1) then prefix + [from + count - 1] else prefix
  }

  /** A call in the range makes a driver exactly when its creation succeeds. */
  lemma {:induction false} CreatedIdsMembers(supported: bool, works: (nat, nat) -> bool, from: nat, count: nat, k: nat)
    requires from <= k < from + count
    ensures k in CreatedIds(supported, works, from, count) <==> CreationSucceeds(supported, works, k)
    decreases count
  {
    if k < from + count - 1 {
      CreatedIdsMembers(supported, works, from, count - 1, k);
    }
  }

  /** The saturating decrement `acquire(blocking=False)` applies `n` times. */
  function Drain(permits: nat, n: nat): (r: nat)
    ensures r == Max(0, permits - n)
  {
    if n == 0 || permits == 0 then permits else Drain(permits - 1, n - 1)
  }

  /** The number of drivers in `ds` whose `quit()` does not raise. */
  function CountQuitOk(ds: seq<DriverId>, quitOk: DriverId -> bool): (n: nat)
    ensures n <= |ds|
    ensures (forall i :: 0 <= i < |ds| ==> quitOk(ds[i])) ==> n == |ds|
  {
    if ds == [] then 0 else (if quitOk(ds[0]) then 1 else 0) + CountQuitOk(ds[1..], quitOk)
  }

  /** `after` is `before` with every driver of `s` quit once more. */
  ghost predicate QuitOnceEach(after: multiset<DriverId>, before: multiset<DriverId>, s: set<DriverId>) {
    forall d :: after[d] == before[d] + (if d in s then 1 else 0)
  }

  /** No driver occurs twice in the idle FIFO. */
  predicate Distinct(ds: seq<DriverId>) {
    forall i, j :: 0 <= i < j < |ds| ==> ds[i] != ds[j]
  }

  class DynamicDriverPool {
    const config: PoolConfig
    /** Whether the configured browser type is one the pool can build. */
    const browserSupported: bool
    /** `works(k, a)`: attempt `a` of creation call `k` yields a driver. */
    const works: (nat, nat) -> bool

    /** `available_drivers`, front first. */
    var available: seq<DriverId>
    /** `in_use_drivers` */
    var inUse: set<DriverId>
    /** The value of `driver_semaphore`. */
    var semaphore: nat
    var isInitialized: bool
    var poolSize: nat
    /** The number of `_create_driver_robust` calls so far. */
    var calls: nat
    /** Every driver `quit()` has been called on. */
    var closed: multiset<DriverId>
    /** Every driver handed to `return_driver`, in call order. */
    ghost var returned: seq<DriverId>

    /**
     * The bookkeeping every operation keeps: one permit per idle driver,
     * no driver both idle and handed out, every driver already created,
     * and an uninitialised pool holds nothing.
     */
    ghost predicate Valid()
      reads this
    {
      semaphore == |available|
      && Distinct(available)
      && (forall i :: 0 <= i < |available| ==> available[i] !in inUse && available[i] < calls)
      && (forall d :: d in inUse ==> d < calls)
      && (!isInitialized ==> available == [] && inUse == {})
    }

    constructor (config: PoolConfig, browserSupported: bool, works: (nat, nat) -> bool)
      ensures this.config == config && this.browserSupported == browserSupported && this.works == works
      ensures available == [] && inUse == {} && semaphore == 0 && !isInitialized && poolSize == 0
      ensures calls == 0 && closed == multiset{} && returned == []
      ensures Valid()
    {
      this.config := config;
      this.browserSupported := browserSupported;
      this.works := works;
      available, inUse, semaphore, isInitialized, poolSize := [], {}, 0, false, 0;
      calls, closed, returned := 0, multiset{}, [];
    }

    /** One `_create_driver_robust` call: the next id on success. */
    method NewDriver() returns (d: Option<DriverId>)
      modifies this`calls
      ensures calls == old(calls) + 1
      ensures d == if CreationSucceeds(browserSupported, works, old(calls)) then Some(old(calls)) else None
    {
      var k := calls;
      var attempt := (a: nat) => works(k, a);
      var ok, attempts, waits := CreateDriverRobust(browserSupported, attempt);
      assert ok <==> CreationSucceeds(browserSupported, works, k) by {
        if browserSupported && !ok {
          assert !attempt(0) && !attempt(1) && !attempt(2);
        }
        if ok {
          assert attempt(attempts - 1) && attempts - 1 <= 2;
        }
      }
      calls := calls + 1;
      d := if ok then Some(k) else None;
    }

    /** `initialize_pool` */
    method InitializePool(totalTasks: nat) returns (ok: bool)
      requires config.tasksPerDriver > 0
      modifies this
      ensures old(isInitialized) ==> ok && unchanged(this)
      ensures !old(isInitialized) ==>
        var made := CreatedIds(browserSupported, works, old(calls), OptimalPoolSize(totalTasks, config));
        && poolSize == OptimalPoolSize(totalTasks, config)
        && calls == old(calls) + poolSize
        && available == old(available) + made
        && semaphore == old(semaphore) + |made|
        && ok == (|made| > 0) && isInitialized == ok
        && inUse == old(inUse) && closed == old(closed)
      ensures returned == old(returned)
      ensures old(Valid()) ==> Valid()
    {
      if isInitialized {
        return true;
      }
      poolSize := OptimalPoolSize(totalTasks, config);
      var successful := FillPool(poolSize);
      if successful == 0 {
        return false;
      }
      isInitialized := true;
      ok := true;
      if old(Valid()) {
        AppendFreshKeepsValid(old(available), old(inUse), browserSupported, works, old(calls), poolSize);
      }
    }

    /** The creation loop shared by `initialize_pool` and `emergency_recovery`: `count` creation calls. */
    method FillPool(count: nat) returns (successful: nat)
      modifies this`available, this`semaphore, this`calls
      ensures var made := CreatedIds(browserSupported, works, old(calls), count);
        && calls == old(calls) + count && available == old(available) + made
        && successful == |made| && semaphore == old(semaphore) + successful
    {
      successful := 0;
      for i := 0 to count
        invariant calls == old(calls) + i
        invariant available == old(available) + CreatedIds(browserSupported, works, old(calls), i)
        invariant successful == |CreatedIds(browserSupported, works, old(calls), i)|
        invariant semaphore == old(semaphore) + successful
      {
        var d := NewDriver();
        if d.Some? {
          available := available + [d.value];
          successful := successful + 1;
          semaphore := semaphore + 1;
        }
      }
    }

    /**
     * `get_driver`. Waiting on the semaphore with nobody to release it ends
     * in the timeout, so an empty semaphore gives `None`.
     */
    method GetDriver() returns (d: Option<DriverId>)
      modifies this`available, this`inUse, this`semaphore
      ensures !old(isInitialized) || old(semaphore) == 0 || old(available) == [] ==> d == None && unchanged(this)
      ensures old(isInitialized) && old(semaphore) > 0 && old(available) != [] ==>
        && d == Some(old(available)[0])
        && available == old(available)[1..]
        && inUse == old(inUse) + {old(available)[0]}
        && semaphore == old(semaphore) - 1
      ensures isInitialized == old(isInitialized) && poolSize == old(poolSize)
      ensures calls == old(calls) && closed == old(closed)
      ensures old(Valid()) ==> Valid()
    {
      if !isInitialized {
        return None;
      }
      if semaphore == 0 {
        return None;
      }
      semaphore := semaphore - 1;
      if available == [] {
        semaphore := semaphore + 1;
        return None;
      }
      d := Some(available[0]);
      available := available[1..];
      inUse := inUse + {d.value};
    }

    /**
     * `return_driver`: nothing for `None`; only `quit()` on an uninitialised
     * pool; quit and a replacement (if one can be made) for a driver that
     * fails the health probe or the reset, which stays in `in_use`; otherwise
     * back to the idle FIFO with one more permit.
     */
    method ReturnDriver(driver: Option<DriverId>, healthy: bool, resetOk: bool)
      modifies this
      ensures driver == None ==> unchanged(this)
      ensures driver.Some? ==> returned == old(returned) + [driver.value]
      ensures driver.Some? && !old(isInitialized) ==>
        closed == old(closed) + multiset{driver.value} && available == old(available)
        && inUse == old(inUse) && semaphore == old(semaphore) && calls == old(calls)
      ensures driver.Some? && old(isInitialized) && !(healthy && resetOk) ==>
        var made := CreatedIds(browserSupported, works, old(calls), 1);
        && closed == old(closed) + multiset{driver.value} && calls == old(calls) + 1
        && available == old(available) + made && semaphore == old(semaphore) + |made|
        && inUse == old(inUse)
      ensures driver.Some? && old(isInitialized) && healthy && resetOk ==>
        && inUse == old(inUse) - {driver.value} && available == old(available) + [driver.value]
        && semaphore == old(semaphore) + 1 && closed == old(closed) && calls == old(calls)
      ensures isInitialized == old(isInitialized) && poolSize == old(poolSize)
      ensures old(Valid()) && (driver.Some? ==> driver.value in old(inUse)) ==> Valid()
    {
      if driver == None {
        return;
      }
      var d := driver.value;
      returned := returned + [d];
      if !isInitialized {
        closed := closed + multiset{d};
        return;
      }
      if !healthy || !resetOk {
        closed := closed + multiset{d};
        ReplaceDriver();
        return;
      }
      inUse := inUse - {d};
      available := available + [d];
      semaphore := semaphore + 1;
    }

    /** The replacement `return_driver` tries for a driver it has quit: one creation call. */
    method ReplaceDriver()
      modifies this`available, this`semaphore, this`calls
      ensures var made := CreatedIds(browserSupported, works, old(calls), 1);
        calls == old(calls) + 1 && available == old(available) + made && semaphore == old(semaphore) + |made|
      ensures old(Valid()) && isInitialized ==> Valid()
    {
      var replacement := NewDriver();
      if replacement.Some? {
        available := available + [replacement.value];
        semaphore := semaphore + 1;
      }
      if old(Valid()) && isInitialized {
        AppendFreshKeepsValid(old(available), inUse, browserSupported, works, old(calls), 1);
      }
    }

    /**
     * `cleanup`: quit every idle driver (taking back a permit only when
     * `quit()` did not raise) and every handed-out driver, then forget them all.
     */
    method Cleanup(quitOk: DriverId -> bool)
      modifies this
      ensures !old(isInitialized) ==> unchanged(this)
      ensures old(isInitialized) ==>
        && available == [] && inUse == {} && !isInitialized
        && semaphore == Drain(old(semaphore), CountQuitOk(old(available), quitOk))
        && QuitOnceEach(closed, old(closed) + multiset(old(available)), old(inUse))
      ensures poolSize == old(poolSize) && calls == old(calls) && returned == old(returned)
      ensures old(Valid()) && (forall i :: 0 <= i < |old(available)| ==> quitOk(old(available)[i])) ==>
        Valid() && semaphore == 0
    {
      if !isInitialized {
        return;
      }
      CloseIdle(quitOk);
      CloseInUse();
      isInitialized := false;
    }

    /** The first loop of `cleanup`: empty the idle FIFO, quitting each driver. */
    method CloseIdle(quitOk: DriverId -> bool)
      modifies this`available, this`semaphore, this`closed
      ensures available == []
      ensures semaphore == Drain(old(semaphore), CountQuitOk(old(available), quitOk))
      ensures closed == old(closed) + multiset(old(available))
    {
      ghost var quit: seq<DriverId> := [];
      while available != []
        invariant old(available) == quit + available
        invariant semaphore == Drain(old(semaphore), CountQuitOk(quit, quitOk))
        invariant closed == old(closed) + multiset(quit)
        decreases |available|
      {
        var d := available[0];
        ShiftFront(quit, available);
        available := available[1..];
        closed := closed + multiset{d};
        if quitOk(d) && semaphore > 0 {
          semaphore := semaphore - 1;
        }
        CountQuitOkSnoc(quit, d, quitOk);
        DrainStep(old(semaphore), CountQuitOk(quit, quitOk), quitOk(d));
        quit := quit + [d];
      }
      assert old(available) == quit;
    }

    /** The second loop of `cleanup`: quit every handed-out driver and forget them. */
    method CloseInUse()
      modifies this`inUse, this`closed
      ensures inUse == {} && QuitOnceEach(closed, old(closed), old(inUse))
    {
      var rest := inUse;
      while rest != {}
        invariant rest <= old(inUse)
        invariant QuitOnceEach(closed, old(closed), old(inUse) - rest)
        decreases rest
      {
        var d :| d in rest;
        closed := closed + multiset{d};
        rest := rest - {d};
      }
      inUse := {};
    }

    /** `emergency_recovery`: clean up, then build `min_pool_size` new drivers. */
    method EmergencyRecovery(quitOk: DriverId -> bool) returns (ok: bool)
      modifies this
      ensures var made := CreatedIds(browserSupported, works, old(calls), config.minPoolSize);
        && poolSize == config.minPoolSize && calls == old(calls) + poolSize
        && inUse == (if old(isInitialized) then {} else old(inUse))
        && available == (if old(isInitialized) then [] else old(available)) + made
        && semaphore == (if old(isInitialized)
                         then Drain(old(semaphore), CountQuitOk(old(available), quitOk))
                         else old(semaphore)) + |made|
        && (if old(isInitialized) then QuitOnceEach(closed, old(closed) + multiset(old(available)), old(inUse))
            else closed == old(closed))
        && ok == (|made| > 0) && isInitialized == ok
      ensures old(Valid()) && (forall i :: 0 <= i < |old(available)| ==> quitOk(old(available)[i])) ==> Valid()
    {
      Cleanup(quitOk);
      ok := Rebuild();
    }

    /** The second half of `emergency_recovery`: `min_pool_size` creation calls. */
    method Rebuild() returns (ok: bool)
      requires !isInitialized
      modifies this
      ensures var made := CreatedIds(browserSupported, works, old(calls), config.minPoolSize);
        && poolSize == config.minPoolSize && calls == old(calls) + poolSize
        && available == old(available) + made && semaphore == old(semaphore) + |made|
        && inUse == old(inUse) && closed == old(closed) && returned == old(returned)
        && ok == (|made| > 0) && isInitialized == ok
      ensures old(Valid()) ==> Valid()
    {
      poolSize := config.minPoolSize;
      var successful := FillPool(poolSize);
      ok := successful > 0;
      isInitialized := ok;
      if old(Valid()) {
        AppendFreshKeepsValid([], {}, browserSupported, works, old(calls), poolSize);
      }
    }
  }

  lemma CountQuitOkSnoc(ds: seq<DriverId>, d: DriverId, quitOk: DriverId -> bool)
    ensures CountQuitOk(ds + [d], quitOk) == CountQuitOk(ds, quitOk) + (if quitOk(d) then 1 else 0)
  {
    if ds != [] {
      assert (ds + [d])[1..] == ds[1..] + [d];
      CountQuitOkSnoc(ds[1..], d, quitOk);
    }
  }

  lemma ShiftFront(done: seq<DriverId>, rest: seq<DriverId>)
    requires rest != []
    ensures done + rest == (done + [rest[0]]) + rest[1..]
    ensures multiset(done + [rest[0]]) == multiset(done) + multiset{rest[0]}
  {
    assert rest == [rest[0]] + rest[1..];
  }

  lemma DrainStep(permits: nat, n: nat, ok: bool)
    ensures Drain(permits, n + (if ok then 1 else 0))
      == (var p := Drain(permits, n); if ok && p > 0 then p - 1 else p)
  {
  }

  /** Appending drivers newer than every known one keeps the FIFO duplicate-free and apart from `in_use`. */
  lemma AppendFreshKeepsValid(avail: seq<DriverId>, inUse: set<DriverId>, supported: bool,
                              works: (nat, nat) -> bool, from: nat, count: nat)
    requires Distinct(avail)
    requires forall i :: 0 <= i < |avail| ==> avail[i] !in inUse && avail[i] < from
    requires forall d :: d in inUse ==> d < from
    ensures var all := avail + CreatedIds(supported, works, from, count);
      Distinct(all) && forall i :: 0 <= i < |all| ==> all[i] !in inUse && all[i] < from + count
  {
    var made := CreatedIds(supported, works, from, count);
    var all := avail + made;
    forall i, j | 0 <= i < j < |all| ensures all[i] != all[j] {
      if j >= |avail| {
        assert all[j] == made[j - |avail|];
        if i >= |avail| {
          assert all[i] == made[i - |avail|];
        }
      }
    }
    forall i | 0 <= i < |all| ensures all[i] !in inUse && all[i] < from + count {
      if i >= |avail| {
        assert all[i] == made[i - |avail|];
      }
    }
  }
}
