/**
 * The stand-alone zone B script: log in to each inverter of a station in
 * name order and double-click its grid link until the requested number of
 * inverters is in the requested state, logging one line per inverter that
 * fails.
 *
 * What the browser shows is an input: `Screen` is what one `turn_on_grid`
 * or `turn_off_grid` call sees, and `visit(name)` is what happens at the
 * inverter of that full name.
 */
module ZoneB {
  import opened Wrappers
  import opened Strings
  import opened KeySort
  import Controller
  import CurtailmentControl
  import Inventory

  const ConnectGrid := Controller.ConnectGrid
  const DisconnectGrid := Controller.DisconnectGrid

  /** `login`'s URL: `http://` is put in front unless a scheme is already there. */
  function FullUrl(url: string): (r: string)
    ensures StartsWith(r, "http://") || StartsWith(r, "https://")
    ensures StartsWith(url, "http://") || StartsWith(url, "https://") ==> r == url
    ensures !(StartsWith(url, "http://") || StartsWith(url, "https://")) ==> r == "http://" + url
  {
    if StartsWith(url, "http://") || StartsWith(url, "https://") then url else "http://" + url
  }

  /** The script prefixes URLs as the package's `fast_login` does. */
  lemma FullUrlAsPackage(url: string)
    ensures FullUrl(url) == Controller.LoginUrl(url)
  {
  }

  /** What the grid link shows to one `turn_on_grid` or `turn_off_grid` call. */
  datatype Screen = Screen(
    raised: Option<string>,    // waiting for the link, the double click or the second read raised this
    before: string,            // the link text once it is clickable
    after: string)             // the link text three seconds after the double click

  /** A failure, with a message that starts with "LỖI". */
  function Failure(detail: string): (r: (bool, string))
    ensures !r.0 && StartsWith(r.1, Controller.ErrorMarker)
  {
    assert (Controller.ErrorMarker + detail)[..|Controller.ErrorMarker|] == Controller.ErrorMarker;
    (false, Controller.ErrorMarker + detail)
  }

  /**
   * The shared shape of `turn_on_grid` and `turn_off_grid`: double-click
   * when the link shows `source` and succeed iff it then shows `target`;
   * succeed without a click when it already shows `target`; fail on any
   * other text or when the browser raises.
   */
  function Toggle(source: string, target: string, done: string, skip: string, s: Screen): (bool, string) {
    if s.raised.Some? then Failure(" SELENIUM/TIMEOUT: " + s.raised.value)
    else
      var textBefore := Strip(s.before);
      if textBefore == source then
        var textAfter := Strip(s.after);
        if textAfter == target then (true, done)
        else Failure(": Trạng thái không chuyển từ '" + textBefore + "' sang '" + target + "' (Hiện tại: " + textAfter + ")")
      else if textBefore == target then (true, skip)
      else Failure(": Trạng thái văn bản không xác định: '" + textBefore + "'")
  }

  const OnSkipMessage := "BỎ QUA: Đã ở trạng thái 'Disconnect Grid' (đã BẬT)"
  const OffSkipMessage := "BỎ QUA: Đã ở trạng thái 'Connect Grid' (đã TẮT)"

  /**
   * `turn_on_grid`: success iff the link already shows "Disconnect Grid",
   * or shows "Connect Grid" and turns to "Disconnect Grid" after the double
   * click; every failure message starts with "LỖI".
   */
  function TurnOnGrid(s: Screen): (r: (bool, string))
    ensures r.0 <==> (s.raised == None
      && (Strip(s.before) == DisconnectGrid || (Strip(s.before) == ConnectGrid && Strip(s.after) == DisconnectGrid)))
    ensures s.raised == None && Strip(s.before) == DisconnectGrid ==> r == (true, OnSkipMessage)
    ensures !r.0 ==> StartsWith(r.1, Controller.ErrorMarker)
  {
    Toggle(ConnectGrid, DisconnectGrid, "TURN ON thành công", OnSkipMessage, s)
  }

  /** `turn_off_grid`: `turn_on_grid` with the two labels swapped. */
  function TurnOffGrid(s: Screen): (r: (bool, string))
    ensures r.0 <==> (s.raised == None
      && (Strip(s.before) == ConnectGrid || (Strip(s.before) == DisconnectGrid && Strip(s.after) == ConnectGrid)))
    ensures s.raised == None && Strip(s.before) == ConnectGrid ==> r == (true, OffSkipMessage)
    ensures !r.0 ==> StartsWith(r.1, Controller.ErrorMarker)
  {
    Toggle(DisconnectGrid, ConnectGrid, "TURN OFF thành công", OffSkipMessage, s)
  }

  /** One grid label for the other; any other text stays. */
  function SwapLabel(t: string): string {
    if t == ConnectGrid then DisconnectGrid else if t == DisconnectGrid then ConnectGrid else t
  }

  /** The screen with the two labels swapped in what it shows. */
  function Mirror(s: Screen): Screen {
    s.(before := SwapLabel(Strip(s.before)), after := SwapLabel(Strip(s.after)))
  }

  /** Stripping a stripped text, or a swapped one, changes nothing more. */
  lemma StripSwapped(t: string)
    ensures Strip(SwapLabel(Strip(t))) == SwapLabel(Strip(t))
  {
    StripUnpadded(Strip(t));
    StripUnpadded(ConnectGrid);
    StripUnpadded(DisconnectGrid);
  }

  /** Turning off succeeds exactly where turning on succeeds on the mirrored screen. */
  lemma TurnOffMirrorsTurnOn(s: Screen)
    ensures TurnOffGrid(s).0 == TurnOnGrid(Mirror(s)).0
  {
    StripSwapped(s.before);
    StripSwapped(s.after);
  }

  /**
   * On a text that is neither label, zone B fails where `curtailment.py`
   * reports a skip as success.
   */
  lemma UnknownTextFailsHere(s: Screen)
    requires s.raised == None && Strip(s.before) !in {"", ConnectGrid, DisconnectGrid}
    ensures !TurnOnGrid(s).0 && !TurnOffGrid(s).0
    ensures CurtailmentControl.Decide("ON", Some(Strip(s.before)))
      == CurtailmentControl.Finish(true, CurtailmentControl.SkipMessage(Strip(s.before)))
    ensures CurtailmentControl.Decide("OFF", Some(Strip(s.before)))
      == CurtailmentControl.Finish(true, CurtailmentControl.SkipMessage(Strip(s.before)))
  {
  }

  /** The action function `control_station_by_count` picks: `turn_off_grid` for OFF, else `turn_on_grid`. */
  function Act(action: string, s: Screen): (bool, string) {
    if action == "OFF" then TurnOffGrid(s) else TurnOnGrid(s)
  }

  /** What happens at one inverter: whether `login` succeeds, and what the grid link shows. */
  datatype Visit = Visit(login: bool, screen: Screen)

  const LoginErrorMessage := "LỖI ĐĂNG NHẬP"

  /** One `error_log` line. */
  function ErrorEntry(fullName: string, action: string, message: string): string {
    fullName + " (Hành động: " + action + "): " + message
  }

  /**
   * One inverter of the loop of `control_station_by_count`: whether it is
   * counted, and the error line it adds when it is not.
   */
  function StepAt(station: string, action: string, inv: (string, Inventory.InverterInfo), visit: string -> Visit)
    : (r: (bool, seq<string>))
    ensures r.0 <==> r.1 == []
    ensures |r.1| <= 1
  {
    var fullName := station + "-" + inv.0;
    var v := visit(fullName);
    if !v.login then (false, [ErrorEntry(fullName, action, LoginErrorMessage)])
    else
      var res := Act(action, v.screen);
      if res.0 then (true, []) else (false, [ErrorEntry(fullName, action, res.1)])
  }

  /**
   * The loop of `control_station_by_count` from inverter `i` of `invs`
   * with `done` inverters already counted: the final count and the error
   * lines still to come.
   */
  function RunFrom(station: string, action: string, count: int, invs: seq<(string, Inventory.InverterInfo)>,
                   visit: string -> Visit, i: nat, done: nat): (r: (nat, seq<string>))
    requires i <= |invs|
    decreases |invs| - i
  {
    if i == |invs| || done >= count then (done, [])
    else
      var step := StepAt(station, action, invs[i], visit);
      var rest := RunFrom(station, action, count, invs, visit, i + 1, if step.0 then done + 1 else done);
      (rest.0, step.1 + rest.1)
  }

  /** The count never falls and never passes the requested count. */
  lemma {:induction false} RunFromBounded(station: string, action: string, count: int,
                                          invs: seq<(string, Inventory.InverterInfo)>, visit: string -> Visit,
                                          i: nat, done: nat)
    requires i <= |invs|
    ensures var r := RunFrom(station, action, count, invs, visit, i, done);
      done <= r.0 && (done <= count ==> r.0 <= count)
    decreases |invs| - i
  {
    if i < |invs| && done < count {
      var step := StepAt(station, action, invs[i], visit);
      var next := if step.0 then done + 1 else done;
      assert done <= next <= count;
      RunFromBounded(station, action, count, invs, visit, i + 1, next);
    }
  }

  /**
   * Every visited inverter either counts or adds exactly one error line,
   * and unless the requested count was reached, every inverter was visited.
   */
  lemma {:induction false} RunFromVisits(station: string, action: string, count: int,
                                         invs: seq<(string, Inventory.InverterInfo)>, visit: string -> Visit,
                                         i: nat, done: nat)
    requires i <= |invs|
    ensures var r := RunFrom(station, action, count, invs, visit, i, done);
      && (r.0 - done) + |r.1| <= |invs| - i
      && (r.0 < count ==> (r.0 - done) + |r.1| == |invs| - i)
    decreases |invs| - i
  {
    if i < |invs| && done < count {
      var step := StepAt(station, action, invs[i], visit);
      RunFromVisits(station, action, count, invs, visit, i + 1, if step.0 then done + 1 else done);
    }
  }

  /** A zero or negative count visits no inverter: nothing is counted or logged. */
  lemma NothingRequested(station: string, action: string, count: int,
                         invs: seq<(string, Inventory.InverterInfo)>, visit: string -> Visit)
    requires count <= 0
    ensures RunFrom(station, action, count, invs, visit, 0, 0) == (0, [])
  {
  }

  /** A log the script appends to. */
  class ErrorLog {
    var entries: seq<string>

    constructor ()
      ensures entries == []
    {
      entries := [];
    }

    method Append(entry: string)
      modifies this
      ensures entries == old(entries) + [entry]
    {
      entries := entries + [entry];
    }
  }

  /** The body of the loop of `control_station_by_count`: log in, act, and log a failure. */
  method VisitInverter(stationName: string, requiredAction: string, inv: (string, Inventory.InverterInfo),
                       errorLog: ErrorLog, visit: string -> Visit) returns (counted: bool)
    modifies errorLog
    ensures var step := StepAt(stationName, requiredAction, inv, visit);
      counted == step.0 && errorLog.entries == old(errorLog.entries) + step.1
  {
    var fullInvName := stationName + "-" + inv.0;
    var v := visit(fullInvName);
    if v.login {
      var (isSuccess, message) := Act(requiredAction, v.screen);
      if isSuccess {
        return true;
      }
      errorLog.Append(ErrorEntry(fullInvName, requiredAction, message));
    } else {
      errorLog.Append(ErrorEntry(fullInvName, requiredAction, LoginErrorMessage));
    }
    counted := false;
  }

  /**
   * `control_station_by_count`: refuse an action other than ON or OFF
   * without visiting anything; otherwise visit the station's inverters in
   * name order until `requiredCount` of them succeeded, logging each
   * failed login or action. The count is only printed by the script; here
   * it is returned.
   */
  method ControlStationByCount(stationName: string, invData: Inventory.Inverters, requiredAction: string,
                               requiredCount: int, errorLog: ErrorLog, visit: string -> Visit)
    returns (countPerformed: nat)
    modifies errorLog
    ensures requiredAction != "ON" && requiredAction != "OFF" ==>
      countPerformed == 0 && errorLog.entries == old(errorLog.entries)
    ensures requiredAction == "ON" || requiredAction == "OFF" ==>
      var r := RunFrom(stationName, requiredAction, requiredCount, SortByKey(invData), visit, 0, 0);
      countPerformed == r.0 && errorLog.entries == old(errorLog.entries) + r.1
  {
    if requiredAction != "OFF" && requiredAction != "ON" {
      return 0;
    }
    var sortedInvs := SortByKey(invData);
    countPerformed := VisitInOrder(stationName, requiredAction, requiredCount, sortedInvs, errorLog, visit);
  }

  /** The loop of `control_station_by_count` over the inverters already in name order. */
  method VisitInOrder(stationName: string, requiredAction: string, requiredCount: int,
                      invs: seq<(string, Inventory.InverterInfo)>, errorLog: ErrorLog, visit: string -> Visit)
    returns (countPerformed: nat)
    modifies errorLog
    ensures var r := RunFrom(stationName, requiredAction, requiredCount, invs, visit, 0, 0);
      countPerformed == r.0 && errorLog.entries == old(errorLog.entries) + r.1
  {
    ghost var total := RunFrom(stationName, requiredAction, requiredCount, invs, visit, 0, 0);
    countPerformed := 0;
    var i := 0;
    while i < |invs|
      invariant 0 <= i <= |invs|
      invariant RunFrom(stationName, requiredAction, requiredCount, invs, visit, i, countPerformed).0 == total.0
      invariant errorLog.entries + RunFrom(stationName, requiredAction, requiredCount, invs, visit, i, countPerformed).1
        == old(errorLog.entries) + total.1
    {
      if countPerformed >= requiredCount {
        break;
      }
      countPerformed := VisitNext(stationName, requiredAction, requiredCount, invs, visit, i, countPerformed, errorLog);
      i := i + 1;
    }
  }

  /**
   * One turn of the loop of `control_station_by_count`, stated against
   * `RunFrom`: visiting inverter `i` leaves the final count unchanged and
   * moves its log line, if any, from the pending to the written log.
   */
  method VisitNext(stationName: string, requiredAction: string, requiredCount: int,
                   invs: seq<(string, Inventory.InverterInfo)>, visit: string -> Visit,
                   i: nat, done: nat, errorLog: ErrorLog) returns (next: nat)
    requires i < |invs| && done < requiredCount
    modifies errorLog
    ensures RunFrom(stationName, requiredAction, requiredCount, invs, visit, i + 1, next).0
      == RunFrom(stationName, requiredAction, requiredCount, invs, visit, i, done).0
    ensures errorLog.entries + RunFrom(stationName, requiredAction, requiredCount, invs, visit, i + 1, next).1
      == old(errorLog.entries) + RunFrom(stationName, requiredAction, requiredCount, invs, visit, i, done).1
  {
    ghost var logged := errorLog.entries;
    ghost var step := StepAt(stationName, requiredAction, invs[i], visit);
    var counted := VisitInverter(stationName, requiredAction, invs[i], errorLog, visit);
    next := if counted then done + 1 else done;
    ghost var rest := RunFrom(stationName, requiredAction, requiredCount, invs, visit, i + 1, next);
    AppendAssoc(logged, step.1, rest.1);
  }

  lemma AppendAssoc(a: seq<string>, b: seq<string>, c: seq<string>)
    ensures (a + b) + c == a + (b + c)
  {
  }
}
