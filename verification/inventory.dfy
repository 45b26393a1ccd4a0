/**
 * The inverter inventory (`SYSTEM_URLS`: zone → station → inverter → info),
 * the control requests (station → action and count) and `prepare_tasks`,
 * which turns the requests into tasks: for every requested station, the
 * first `count` inverters in ascending name order.
 */
module Inventory {
  import opened Wrappers
  import opened Strings
  import OM = OrderedMaps
  import opened KeySort
  import opened TaskQueue

  /** The `url`, the descriptive `info` text and the optional `status` of one inverter. */
  datatype InverterInfo = InverterInfo(url: string, info: string, status: Option<string>)

  type Inverters = OM.OMap<string, InverterInfo>
  type Stations = OM.OMap<string, Inverters>
  /** `SYSTEM_URLS`, zones in insertion order. */
  type SystemUrls = OM.OMap<string, Stations>

  /** One entry of the control requests: `{"action": ..., "count": ...}`. */
  datatype Request = Request(action: string, count: int)
  type Requests = OM.OMap<string, Request>

  /** The task for one inverter of a station: "station-inverter", status upper-cased, "OK" when absent. */
  function TaskFor(station: string, inv: (string, InverterInfo), action: string): InverterTask {
    NewTask(station + "-" + inv.0, inv.1.url, action, Upper(inv.1.status.GetOr("OK")))
  }

  /** How many inverters a request takes from a station of `n`: `count` capped at `n`, none for `count <= 0`. */
  function Quota(count: int, n: nat): (q: nat)
    ensures q <= n && (count >= 0 ==> q <= count)
    ensures count <= 0 ==> q == 0
    ensures count > 0 ==> q == n || q == count
    ensures count >= n ==> q == n
  {
    if count <= 0 then 0 else Min(count, n)
  }

  /** The tasks one requested station contributes: the first `Quota` inverters in name order. */
  function StationTasks(station: string, req: Request, invs: Inverters): (ts: seq<InverterTask>)
    ensures |ts| == Quota(req.count, |invs|)
  {
    var sorted := SortByKey(invs);
    seq(Quota(req.count, |invs|), j requires 0 <= j < Quota(req.count, |invs|) => TaskFor(station, sorted[j], req.action))
  }

  /** A station's tasks, or none when the station is not requested. */
  function StationPart(station: (string, Inverters), requests: Requests): seq<InverterTask> {
    match OM.Get(requests, station.0)
    case None => []
    case Some(req) => StationTasks(station.0, req, station.1)
  }

  /** The tasks of the stations of one zone, in station order. */
  function ZoneTasks(stations: Stations, requests: Requests): seq<InverterTask> {
    if stations == [] then []
    else ZoneTasks(stations[..|stations| - 1], requests) + StationPart(stations[|stations| - 1], requests)
  }

  /** The tasks `prepare_tasks` returns: zone by zone, station by station. */
  function PreparedTasks(urls: SystemUrls, requests: Requests): seq<InverterTask> {
    if urls == [] then []
    else PreparedTasks(urls[..|urls| - 1], requests) + ZoneTasks(urls[|urls| - 1].1, requests)
  }

  /** The inverters a station's tasks stand for are its smallest names, in ascending order. */
  lemma StationTasksSmallestFirst(station: string, req: Request, invs: Inverters)
    ensures var ts := StationTasks(station, req, invs); var sorted := SortByKey(invs);
      && (forall j :: 0 <= j < |ts| ==> sorted[j] in invs && ts[j] == TaskFor(station, sorted[j], req.action))
      && (forall j, k :: 0 <= j < |ts| <= k < |sorted| ==> LexLeq(sorted[j].0, sorted[k].0))
  {
    var sorted := SortByKey(invs);
    forall j | 0 <= j < |sorted| ensures sorted[j] in invs {
      assert sorted[j] in multiset(sorted);
    }
  }

  /** A task belongs to a requested station and carries that station's action. */
  ghost predicate Requested(t: InverterTask, requests: Requests) {
    exists k :: 0 <= k < |requests| && t.requiredAction == requests[k].1.action
      && StartsWith(t.fullName, requests[k].0 + "-")
  }

  /** A new task: no retry, no error, no outcome. */
  predicate Fresh(t: InverterTask) {
    t.retryCount == 0 && t.lastError == None && t.completionStatus == None && t.completionMessage == None
  }

  lemma StationPartRequested(station: (string, Inverters), requests: Requests)
    ensures forall t :: t in StationPart(station, requests) ==> Requested(t, requests) && Fresh(t)
  {
    match OM.Get(requests, station.0)
    case None =>
    case Some(req) =>
      var k :| 0 <= k < |requests| && requests[k] == (station.0, req);
      forall t | t in StationPart(station, requests) ensures Requested(t, requests) && Fresh(t) {
        var j :| 0 <= j < |StationTasks(station.0, req, station.1)| && StationTasks(station.0, req, station.1)[j] == t;
        var prefix := requests[k].0 + "-";
        assert t.fullName[..|prefix|] == prefix;
      }
  }

  lemma {:induction false} ZoneTasksRequested(stations: Stations, requests: Requests)
    ensures forall t :: t in ZoneTasks(stations, requests) ==> Requested(t, requests) && Fresh(t)
    decreases |stations|
  {
    if stations != [] {
      ZoneTasksRequested(stations[..|stations| - 1], requests);
      StationPartRequested(stations[|stations| - 1], requests);
    }
  }

  /** Every prepared task is new, and belongs to a requested station with that station's action. */
  lemma {:induction false} PreparedTasksRequested(urls: SystemUrls, requests: Requests)
    ensures forall t :: t in PreparedTasks(urls, requests) ==> Requested(t, requests) && Fresh(t)
    decreases |urls|
  {
    if urls != [] {
      PreparedTasksRequested(urls[..|urls| - 1], requests);
      ZoneTasksRequested(urls[|urls| - 1].1, requests);
    }
  }

  /** No request, no task. */
  lemma {:induction false} NoRequestsNoTasks(urls: SystemUrls)
    ensures PreparedTasks(urls, []) == []
    decreases |urls|
  {
    if urls != [] {
      NoRequestsNoTasks(urls[..|urls| - 1]);
      ZoneNoRequests(urls[|urls| - 1].1);
    }
  }

  lemma {:induction false} ZoneNoRequests(stations: Stations)
    ensures ZoneTasks(stations, []) == []
    decreases |stations|
  {
    if stations != [] {
      ZoneNoRequests(stations[..|stations| - 1]);
    }
  }

  /**
   * `prepare_tasks`: walk the zones and their stations; a requested station
   * adds its tasks.
   */
  method PrepareTasks(urls: SystemUrls, requests: Requests) returns (tasks: seq<InverterTask>, totalInverters: nat)
    ensures tasks == PreparedTasks(urls, requests)
    ensures totalInverters == |tasks|
  {
    tasks, totalInverters := [], 0;
    for z := 0 to |urls|
      invariant tasks == PreparedTasks(urls[..z], requests) && totalInverters == |tasks|
    {
      var added := AddZone(urls[z].1, requests);
      tasks := tasks + added;
      totalInverters := totalInverters + |added|;
      assert urls[..z + 1][..z] == urls[..z];
    }
    assert urls[..|urls|] == urls;
  }

  /** The station loop of `prepare_tasks` for one zone. */
  method AddZone(stations: Stations, requests: Requests) returns (added: seq<InverterTask>)
    ensures added == ZoneTasks(stations, requests)
  {
    added := [];
    for s := 0 to |stations|
      invariant added == ZoneTasks(stations[..s], requests)
    {
      var (stationName, inverters) := stations[s];
      var request := OM.Get(requests, stationName);
      if request.Some? {
        var fromStation := AddStation(stationName, request.value, inverters);
        added := added + fromStation;
      }
      assert stations[..s + 1][..s] == stations[..s];
    }
    assert stations[..|stations|] == stations;
  }

  /**
   * The inner loop of `prepare_tasks` for one requested station: its
   * inverters in name order, stopping once `count` tasks are added.
   */
  method AddStation(stationName: string, request: Request, inverters: Inverters) returns (added: seq<InverterTask>)
    ensures added == StationTasks(stationName, request, inverters)
  {
    var sortedInvs := SortByKey(inverters);
    var countAdded := 0;
    added := [];
    var i := 0;
    while i < |sortedInvs|
      invariant i <= |sortedInvs| && countAdded == i && i <= Quota(request.count, |inverters|)
      invariant |added| == i
      invariant forall j :: 0 <= j < i ==> added[j] == TaskFor(stationName, sortedInvs[j], request.action)
    {
      if countAdded >= request.count {
        break;
      }
      added := added + [TaskFor(stationName, sortedInvs[i], request.action)];
      countAdded := countAdded + 1;
      i := i + 1;
    }
  }
}
