/**
 * `ExcelConfigReader`: the workbook check, the folds that turn the rows of
 * the `Stations` and `Control_Scenarios` sheets into `SYSTEM_URLS` and the
 * two control scenarios, the numbered scenario menu, and the validation of
 * a scenario against the inventory. Opening the file and reading a sheet
 * are inputs: a sheet that could not be read is `None`.
 */
module ExcelReader {
  import opened Wrappers
  import opened Strings
  import OM = OrderedMaps
  import Inventory

  const StationsSheet: string := "Stations"
  const ScenariosSheet: string := "Control_Scenarios"
  const RequiredSheets: seq<string> := [StationsSheet, ScenariosSheet]
  const StationColumns: seq<string> := ["Zone", "Station", "Inverter", "URL", "Status"]
  const ScenarioColumns: seq<string> := ["Station", "Action", "Count"]
  const OffScenario: string := "Tắt một số inverter"
  const OnScenario: string := "Bật một số inverter"

  /** The names of `required` that `present` lacks, in the order of `required`. */
  function Missing(required: seq<string>, present: seq<string>): (m: seq<string>)
    ensures forall x :: x in m <==> x in required && x !in present
    ensures |m| <= |required|
  {
    if required == [] then []
    else
      var last := required[|required| - 1];
      assert required == required[..|required| - 1] + [last];
      Missing(required[..|required| - 1], present) + (if last in present then [] else [last])
  }

  /**
   * `check_excel_file`: false when the file does not exist, when opening it
   * raised (`sheetNames` is `None`), or when a required sheet is missing.
   */
  method CheckExcelFile(fileExists: bool, sheetNames: Option<seq<string>>) returns (ok: bool)
    ensures ok <==> fileExists && sheetNames.Some? && forall s :: s in RequiredSheets ==> s in sheetNames.value
  {
    if !fileExists || sheetNames.None? {
      return false;
    }
    var missingSheets := [];
    var i := 0;
    while i < |RequiredSheets|
      invariant 0 <= i <= |RequiredSheets|
      invariant missingSheets == Missing(RequiredSheets[..i], sheetNames.value)
    {
      assert RequiredSheets[..i + 1][..i] == RequiredSheets[..i];
      if RequiredSheets[i] !in sheetNames.value {
        missingSheets := missingSheets + [RequiredSheets[i]];
      }
      i := i + 1;
    }
    assert RequiredSheets[..i] == RequiredSheets;
    ok := missingSheets == [];
  }

  /** A sheet as read: its column names and its rows. */
  datatype Sheet<R> = Sheet(columns: seq<string>, rows: seq<R>)

  /** One row of `Stations`; `info` is `None` when the sheet has no `Info` column. */
  datatype StationRow = StationRow(zone: string, station: string, inverter: string, url: string,
                                   status: string, info: Option<string>)

  /** What a row stores for its inverter; the info text defaults to "Inverter <name>". */
  function RowInfo(row: StationRow): Inventory.InverterInfo {
    Inventory.InverterInfo(row.url, row.info.GetOr("Inverter " + row.inverter), Some(row.status))
  }

  /** `system_urls[zone][station][inverter] = {...}`, creating the zone and the station when new. */
  function AddStationRow(urls: Inventory.SystemUrls, row: StationRow): Inventory.SystemUrls {
    var stations := OM.GetOr(urls, row.zone, []);
    var invs := OM.GetOr(stations, row.station, []);
    OM.Put(urls, row.zone, OM.Put(stations, row.station, OM.Put(invs, row.inverter, RowInfo(row))))
  }

  /** The rows folded in order into an empty `system_urls`. */
  function StationsFold(rows: seq<StationRow>): Inventory.SystemUrls {
    if rows == [] then [] else AddStationRow(StationsFold(rows[..|rows| - 1]), rows[|rows| - 1])
  }

  /** `read_stations_config`: `None` when the sheet cannot be read or lacks a required column. */
  function ReadStations(sheet: Option<Sheet<StationRow>>): (r: Option<Inventory.SystemUrls>)
    ensures r.None? <==> sheet.None? || exists c :: c in StationColumns && c !in sheet.value.columns
    ensures r.Some? ==> r.value == StationsFold(sheet.value.rows)
  {
    match sheet
    case None => None
    case Some(s) =>
      var missing := Missing(StationColumns, s.columns);
      if missing != [] then
        assert missing[0] in missing;
        None
      else Some(StationsFold(s.rows))
  }

  /** `system_urls[zone][station][inverter]`, when every level is present. */
  function Lookup(urls: Inventory.SystemUrls, zone: string, station: string, inverter: string): Option<Inventory.InverterInfo> {
    match OM.Get(urls, zone)
    case None => None
    case Some(stations) =>
      match OM.Get(stations, station)
      case None => None
      case Some(invs) => OM.Get(invs, inverter)
  }

  /** The last of `rows` for the given zone, station and inverter. */
  function LastRow(rows: seq<StationRow>, zone: string, station: string, inverter: string): Option<StationRow> {
    if rows == [] then None
    else
      var row := rows[|rows| - 1];
      if row.zone == zone && row.station == station && row.inverter == inverter then Some(row)
      else LastRow(rows[..|rows| - 1], zone, station, inverter)
  }

  /** One row sets its own inverter's entry and leaves every other entry alone. */
  lemma AddStationRowLookup(urls: Inventory.SystemUrls, row: StationRow, zone: string, station: string, inverter: string)
    ensures Lookup(AddStationRow(urls, row), zone, station, inverter)
      == if row.zone == zone && row.station == station && row.inverter == inverter then Some(RowInfo(row))
         else Lookup(urls, zone, station, inverter)
  {
    var stations := OM.GetOr(urls, row.zone, []);
    var invs := OM.GetOr(stations, row.station, []);
    var invs' := OM.Put(invs, row.inverter, RowInfo(row));
    var stations' := OM.Put(stations, row.station, invs');
    if zone != row.zone {
      OM.GetPutOther(urls, row.zone, stations', zone);
    } else {
      OM.GetPutSame(urls, row.zone, stations');
      if station != row.station {
        OM.GetPutOther(stations, row.station, invs', station);
      } else {
        OM.GetPutSame(stations, row.station, invs');
        if inverter != row.inverter {
          OM.GetPutOther(invs, row.inverter, RowInfo(row), inverter);
        } else {
          OM.GetPutSame(invs, row.inverter, RowInfo(row));
        }
      }
    }
  }

  /**
   * Every inverter of the result holds what the last row naming it says,
   * and nothing is present that no row names: a later duplicate row
   * overwrites an earlier one.
   */
  lemma {:induction false} LaterRowWins(rows: seq<StationRow>, zone: string, station: string, inverter: string)
    ensures Lookup(StationsFold(rows), zone, station, inverter)
      == match LastRow(rows, zone, station, inverter)
         case None => None
         case Some(row) => Some(RowInfo(row))
  {
    if rows != [] {
      LaterRowWins(rows[..|rows| - 1], zone, station, inverter);
      AddStationRowLookup(StationsFold(rows[..|rows| - 1]), rows[|rows| - 1], zone, station, inverter);
    }
  }

  /** `read_stations_config`, row by row. */
  method ReadStationsConfig(sheet: Option<Sheet<StationRow>>) returns (systemUrls: Option<Inventory.SystemUrls>)
    ensures systemUrls == ReadStations(sheet)
  {
    if sheet.None? {
      return None;
    }
    var df := sheet.value;
    var missingColumns := Missing(StationColumns, df.columns);
    if missingColumns != [] {
      return None;
    }
    var urls: Inventory.SystemUrls := [];
    var i := 0;
    while i < |df.rows|
      invariant 0 <= i <= |df.rows|
      invariant urls == StationsFold(df.rows[..i])
    {
      assert df.rows[..i + 1][..i] == df.rows[..i];
      urls := AddStationRow(urls, df.rows[i]);
      i := i + 1;
    }
    assert df.rows[..i] == df.rows;
    systemUrls := Some(urls);
  }

  /** One row of `Control_Scenarios`. */
  datatype ScenarioRow = ScenarioRow(station: string, action: string, count: int)

  /** Scenario name → its requests (station → action and count). */
  type Scenarios = OM.OMap<string, Inventory.Requests>

  /** The two scenarios the reader starts from, both empty. */
  const NoScenarios: Scenarios := [(OffScenario, []), (OnScenario, [])]

  /** The scenario a row's action files it under; any action but OFF and ON has none. */
  function ScenarioFor(action: string): (name: Option<string>)
    ensures name == Some(OffScenario) <==> action == "OFF"
    ensures name == Some(OnScenario) <==> action == "ON"
    ensures name.None? <==> action != "OFF" && action != "ON"
  {
    if action == "OFF" then Some(OffScenario)
    else if action == "ON" then Some(OnScenario)
    else None
  }

  /** `scenarios[scenario_name][station] = {...}` for an OFF or ON row; any other row is skipped. */
  function AddScenarioRow(scenarios: Scenarios, row: ScenarioRow): Scenarios {
    match ScenarioFor(row.action)
    case None => scenarios
    case Some(name) =>
      OM.Put(scenarios, name, OM.Put(OM.GetOr(scenarios, name, []), row.station, Inventory.Request(row.action, row.count)))
  }

  /** The rows folded in order into the two empty scenarios. */
  function ScenariosFold(rows: seq<ScenarioRow>): Scenarios {
    if rows == [] then NoScenarios else AddScenarioRow(ScenariosFold(rows[..|rows| - 1]), rows[|rows| - 1])
  }

  /** `read_control_scenarios`: no scenarios at all when the sheet cannot be read or lacks a required column. */
  function ReadScenarios(sheet: Option<Sheet<ScenarioRow>>): (r: Scenarios)
    ensures r == [] <==> sheet.None? || exists c :: c in ScenarioColumns && c !in sheet.value.columns
    ensures r != [] ==> r == ScenariosFold(sheet.value.rows)
  {
    match sheet
    case None => []
    case Some(s) =>
      var missing := Missing(ScenarioColumns, s.columns);
      if missing != [] then
        assert missing[0] in missing;
        []
      else
        ScenarioKeys(s.rows);
        ScenariosFold(s.rows)
  }

  /** Whatever the rows, the result has exactly the two scenarios, OFF first. */
  lemma {:induction false} ScenarioKeys(rows: seq<ScenarioRow>)
    ensures OM.Keys(ScenariosFold(rows)) == [OffScenario, OnScenario]
  {
    if rows != [] {
      var sc := ScenariosFold(rows[..|rows| - 1]);
      ScenarioKeys(rows[..|rows| - 1]);
      var row := rows[|rows| - 1];
      if ScenarioFor(row.action).Some? {
        var name := ScenarioFor(row.action).value;
        assert OM.Keys(sc)[if name == OffScenario then 0 else 1] == name;
      }
    }
  }

  /** The last OFF or ON row for `station` with the given action, as the request it files. */
  function LastRequest(rows: seq<ScenarioRow>, action: string, station: string): Option<Inventory.Request> {
    if rows == [] then None
    else
      var row := rows[|rows| - 1];
      if row.action == action && row.station == station then Some(Inventory.Request(action, row.count))
      else LastRequest(rows[..|rows| - 1], action, station)
  }

  /** The requests filed under the scenario of `action`, which is OFF or ON. */
  function Filed(scenarios: Scenarios, action: string): Inventory.Requests
    requires action == "OFF" || action == "ON"
  {
    OM.GetOr(scenarios, ScenarioFor(action).value, [])
  }

  /** One row files its request under its own scenario and station and changes nothing else. */
  lemma AddScenarioRowFiled(scenarios: Scenarios, row: ScenarioRow, action: string, station: string)
    requires action == "OFF" || action == "ON"
    ensures OM.Get(Filed(AddScenarioRow(scenarios, row), action), station)
      == if row.action == action && row.station == station then Some(Inventory.Request(action, row.count))
         else OM.Get(Filed(scenarios, action), station)
  {
    var name := ScenarioFor(action).value;
    match ScenarioFor(row.action)
    case None =>
    case Some(rowName) =>
      var requests := OM.GetOr(scenarios, rowName, []);
      var requests' := OM.Put(requests, row.station, Inventory.Request(row.action, row.count));
      if rowName != name {
        OM.GetPutOther(scenarios, rowName, requests', name);
      } else {
        OM.GetPutSame(scenarios, rowName, requests');
        if station != row.station {
          OM.GetPutOther(requests, row.station, Inventory.Request(row.action, row.count), station);
        } else {
          OM.GetPutSame(requests, row.station, Inventory.Request(row.action, row.count));
        }
      }
  }

  /**
   * Under the scenario of OFF (or ON) a station holds the request of the
   * last OFF (or ON) row naming it, and no station is there that no such
   * row names: rows with another action are skipped, and a later row for
   * the same station wins.
   */
  lemma {:induction false} LaterScenarioRowWins(rows: seq<ScenarioRow>, action: string, station: string)
    requires action == "OFF" || action == "ON"
    ensures OM.Get(Filed(ScenariosFold(rows), action), station) == LastRequest(rows, action, station)
  {
    if rows != [] {
      LaterScenarioRowWins(rows[..|rows| - 1], action, station);
      AddScenarioRowFiled(ScenariosFold(rows[..|rows| - 1]), rows[|rows| - 1], action, station);
    }
  }

  /** `read_control_scenarios`, row by row. */
  method ReadControlScenarios(sheet: Option<Sheet<ScenarioRow>>) returns (scenarios: Scenarios)
    ensures scenarios == ReadScenarios(sheet)
  {
    if sheet.None? {
      return [];
    }
    var df := sheet.value;
    var missingColumns := Missing(ScenarioColumns, df.columns);
    if missingColumns != [] {
      return [];
    }
    scenarios := NoScenarios;
    var i := 0;
    while i < |df.rows|
      invariant 0 <= i <= |df.rows|
      invariant scenarios == ScenariosFold(df.rows[..i])
    {
      assert df.rows[..i + 1][..i] == df.rows[..i];
      scenarios := AddScenarioRow(scenarios, df.rows[i]);
      i := i + 1;
    }
    assert df.rows[..i] == df.rows;
  }

  /** One entry of the scenario menu: the scenario's name and its requests. */
  datatype MenuEntry = MenuEntry(name: string, requests: Inventory.Requests)

  /** The menu: "1", "2", ... → entry. */
  type Menu = OM.OMap<string, MenuEntry>

  /** The scenarios with at least one request, in order. */
  function NonEmpty(scenarios: Scenarios): (ne: Scenarios)
    ensures |ne| <= |scenarios|
  {
    if scenarios == [] then []
    else
      var last := scenarios[|scenarios| - 1];
      NonEmpty(scenarios[..|scenarios| - 1]) + (if last.1 == [] then [] else [last])
  }

  /**
   * The menu `get_available_scenarios` builds over `scenarios`: every
   * scenario with requests takes the next number, starting from 1.
   */
  function MenuOf(scenarios: Scenarios): Menu {
    if scenarios == [] then []
    else
      var menu := MenuOf(scenarios[..|scenarios| - 1]);
      var last := scenarios[|scenarios| - 1];
      if last.1 == [] then menu
      else menu + [(NatToString(|menu| + 1), MenuEntry(last.0, last.1))]
  }

  /** `get_available_scenarios`: an empty menu when there are no scenarios at all. */
  function AvailableScenarios(sheet: Option<Sheet<ScenarioRow>>): Menu {
    var scenarios := ReadScenarios(sheet);
    if scenarios == [] then [] else MenuOf(scenarios)
  }

  /** The menu has one entry per scenario with requests. */
  lemma {:induction false} MenuSize(scenarios: Scenarios)
    ensures |MenuOf(scenarios)| == |NonEmpty(scenarios)|
  {
    if scenarios != [] {
      MenuSize(scenarios[..|scenarios| - 1]);
    }
  }

  /**
   * Entry `j` of the menu is the `j`-th scenario with requests, under the
   * key `j + 1`: the scenarios with requests, in order, numbered from 1
   * with no number skipped.
   */
  lemma {:induction false} MenuAt(scenarios: Scenarios, j: nat)
    requires j < |MenuOf(scenarios)|
    ensures j < |NonEmpty(scenarios)|
    ensures MenuOf(scenarios)[j] == (NatToString(j + 1), MenuEntry(NonEmpty(scenarios)[j].0, NonEmpty(scenarios)[j].1))
  {
    var init := scenarios[..|scenarios| - 1];
    MenuSize(init);
    if j < |MenuOf(init)| {
      MenuAt(init, j);
    }
  }

  /** No two menu entries share a key. */
  lemma MenuKeysUnique(scenarios: Scenarios)
    ensures OM.UniqueKeys(MenuOf(scenarios))
  {
    var menu := MenuOf(scenarios);
    forall i, j | 0 <= i < j < |menu| ensures menu[i].0 != menu[j].0 {
      MenuAt(scenarios, i);
      MenuAt(scenarios, j);
      assert DigitsValue(menu[i].0) == i + 1 && DigitsValue(menu[j].0) == j + 1;
    }
  }

  /** The menu offers at most the two scenarios, and none when the sheet could not be used. */
  lemma MenuOfSheet(sheet: Option<Sheet<ScenarioRow>>)
    ensures |AvailableScenarios(sheet)| <= 2
    ensures ReadScenarios(sheet) == [] ==> AvailableScenarios(sheet) == []
  {
    var scenarios := ReadScenarios(sheet);
    if scenarios != [] {
      ScenarioKeys(sheet.value.rows);
      MenuSize(scenarios);
    }
  }

  /** `get_available_scenarios`, scenario by scenario. */
  method GetAvailableScenarios(sheet: Option<Sheet<ScenarioRow>>) returns (scenarioList: Menu)
    ensures scenarioList == AvailableScenarios(sheet)
  {
    var scenarios := ReadControlScenarios(sheet);
    if scenarios == [] {
      return [];
    }
    scenarioList := [];
    var index := 1;
    var i := 0;
    while i < |scenarios|
      invariant 0 <= i <= |scenarios|
      invariant scenarioList == MenuOf(scenarios[..i]) && index == |scenarioList| + 1
    {
      assert scenarios[..i + 1][..i] == scenarios[..i];
      var (scenarioName, requests) := scenarios[i];
      if requests != [] {
        // the number is new, so the assignment appends
        scenarioList := scenarioList + [(NatToString(index), MenuEntry(scenarioName, requests))];
        index := index + 1;
      }
      i := i + 1;
    }
    assert scenarios[..i] == scenarios;
  }

  /** The inverters of `station` in the first zone that has it. */
  function StationIn(urls: Inventory.SystemUrls, station: string): Option<Inventory.Inverters> {
    if urls == [] then None
    else
      var here := OM.Get(urls[0].1, station);
      if here.Some? then here else StationIn(urls[1..], station)
  }

  /**
   * The station is found iff some zone has it, and what is found is the
   * station of the first such zone; later zones are never looked at.
   */
  lemma {:induction false} StationInFirst(urls: Inventory.SystemUrls, station: string)
    ensures StationIn(urls, station).None? <==> forall k :: 0 <= k < |urls| ==> !OM.HasKey(urls[k].1, station)
    ensures StationIn(urls, station).Some? ==>
      exists k :: 0 <= k < |urls| && OM.Get(urls[k].1, station) == StationIn(urls, station)
        && forall j :: 0 <= j < k ==> !OM.HasKey(urls[j].1, station)
  {
    if urls != [] && OM.Get(urls[0].1, station).None? {
      StationInFirst(urls[1..], station);
      assert forall k :: 1 <= k < |urls| ==> urls[k] == urls[1..][k - 1];
      if StationIn(urls, station).Some? {
        var k :| 0 <= k < |urls[1..]| && OM.Get(urls[1..][k].1, station) == StationIn(urls, station)
          && forall j :: 0 <= j < k ==> !OM.HasKey(urls[1..][j].1, station);
        assert OM.Get(urls[k + 1].1, station) == StationIn(urls, station);
      }
    }
  }

  function NotFoundError(station: string): string {
    "Station '" + station + "' không tồn tại trong hệ thống"
  }

  function ActionError(station: string, action: string): string {
    "Station " + station + ": Action '" + action + "' không hợp lệ (phải là ON hoặc OFF)"
  }

  function CountWarning(station: string, requested: nat, available: nat): string {
    "Station " + station + ": Yêu cầu " + NatToString(requested) + " nhưng chỉ có " + NatToString(available) + " inverter"
  }

  /** The errors and the warnings of one request, judged against the first zone that has its station. */
  function CheckRequest(urls: Inventory.SystemUrls, request: (string, Inventory.Request)): (seq<string>, seq<string>) {
    var station := request.0;
    match StationIn(urls, station)
    case None => ([NotFoundError(station)], [])
    case Some(invs) =>
      ((if request.1.action == "ON" || request.1.action == "OFF" then [] else [ActionError(station, request.1.action)]),
       (if request.1.count > |invs| then [CountWarning(station, request.1.count, |invs|)] else []))
  }

  /** `validate_scenario_with_system`: the errors and warnings of every request, in request order. */
  function Validate(requests: Inventory.Requests, urls: Inventory.SystemUrls): (seq<string>, seq<string>) {
    if requests == [] then ([], [])
    else
      var before := Validate(requests[..|requests| - 1], urls);
      var here := CheckRequest(urls, requests[|requests| - 1]);
      (before.0 + here.0, before.1 + here.1)
  }

  /** A request raises no error iff its station is in some zone and its action is ON or OFF. */
  predicate Accepted(urls: Inventory.SystemUrls, request: (string, Inventory.Request)) {
    StationIn(urls, request.0).Some? && (request.1.action == "ON" || request.1.action == "OFF")
  }

  /** A request raises no warning iff its station is unknown or has at least the requested number of inverters. */
  predicate Coverable(urls: Inventory.SystemUrls, request: (string, Inventory.Request)) {
    match StationIn(urls, request.0)
    case None => true
    case Some(invs) => request.1.count <= |invs|
  }

  /** Each request adds at most one error; there are none iff every request is accepted. */
  lemma {:induction false} ValidateErrors(requests: Inventory.Requests, urls: Inventory.SystemUrls)
    ensures |Validate(requests, urls).0| <= |requests|
    ensures Validate(requests, urls).0 == [] <==> forall k :: 0 <= k < |requests| ==> Accepted(urls, requests[k])
  {
    if requests != [] {
      var init := requests[..|requests| - 1];
      ValidateErrors(init, urls);
      assert forall k :: 0 <= k < |init| ==> init[k] == requests[k];
    }
  }

  /** Each request adds at most one warning; there are none iff every request is coverable. */
  lemma {:induction false} ValidateWarnings(requests: Inventory.Requests, urls: Inventory.SystemUrls)
    ensures |Validate(requests, urls).1| <= |requests|
    ensures Validate(requests, urls).1 == [] <==> forall k :: 0 <= k < |requests| ==> Coverable(urls, requests[k])
  {
    if requests != [] {
      var init := requests[..|requests| - 1];
      ValidateWarnings(init, urls);
      assert forall k :: 0 <= k < |init| ==> init[k] == requests[k];
    }
  }

  /** `validate_scenario_with_system`, request by request, searching the zones in order. */
  method ValidateScenarioWithSystem(scenarioRequests: Inventory.Requests, systemUrls: Inventory.SystemUrls)
    returns (errors: seq<string>, warnings: seq<string>)
    ensures (errors, warnings) == Validate(scenarioRequests, systemUrls)
  {
    errors, warnings := [], [];
    var i := 0;
    while i < |scenarioRequests|
      invariant 0 <= i <= |scenarioRequests|
      invariant (errors, warnings) == Validate(scenarioRequests[..i], systemUrls)
    {
      assert scenarioRequests[..i + 1][..i] == scenarioRequests[..i];
      var e, w := CheckStation(scenarioRequests[i], systemUrls);
      errors, warnings := errors + e, warnings + w;
      i := i + 1;
    }
    assert scenarioRequests[..i] == scenarioRequests;
  }

  /** The body of the loop of `validate_scenario_with_system`: find the station's first zone and judge the request there. */
  method CheckStation(request: (string, Inventory.Request), systemUrls: Inventory.SystemUrls)
    returns (errors: seq<string>, warnings: seq<string>)
    ensures (errors, warnings) == CheckRequest(systemUrls, request)
  {
    var station, req := request.0, request.1;
    errors, warnings := [], [];
    var stationExists := false;
    var j := 0;
    while j < |systemUrls|
      invariant 0 <= j <= |systemUrls|
      invariant StationIn(systemUrls, station) == StationIn(systemUrls[j..], station)
      invariant errors == [] && warnings == [] && !stationExists
    {
      var found := OM.Get(systemUrls[j].1, station);
      assert systemUrls[j..][0] == systemUrls[j];
      if found.Some? {
        stationExists := true;
        var availableInverters := |found.value|;
        if req.count > availableInverters {
          warnings := [CountWarning(station, req.count, availableInverters)];
        }
        if req.action != "ON" && req.action != "OFF" {
          errors := [ActionError(station, req.action)];
        }
        break;
      }
      assert systemUrls[j..][1..] == systemUrls[j + 1..];
      j := j + 1;
    }
    if !stationExists {
      assert systemUrls[j..] == [];
      errors := [NotFoundError(station)];
    }
  }
}
