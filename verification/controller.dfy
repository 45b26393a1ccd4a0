/**
 * The package controller's decisions (`InverterController`): the URL
 * prefix of `fast_login`, the shape of `get_grid_status`, and
 * `perform_grid_action`, which reads the grid link's text, decides to skip,
 * to refuse or to click, and judges a click by the text that appears.
 *
 * The link reads "Disconnect Grid" while the inverter feeds the grid and
 * "Connect Grid" while it does not. The browser is replaced by a `Page`
 * record of what it would show.
 */
module Controller {
  import opened Wrappers
  import opened Strings

  const ConnectGrid := "Connect Grid"
  const DisconnectGrid := "Disconnect Grid"

  /** `fast_login`'s URL: `http://` is put in front unless a scheme is already there. */
  function LoginUrl(url: string): (r: string)
    ensures StartsWith(r, "http://") || StartsWith(r, "https://")
    ensures StartsWith(url, "http://") || StartsWith(url, "https://") ==> r == url
    ensures !(StartsWith(url, "http://") || StartsWith(url, "https://")) ==> r == "http://" + url
  {
    if StartsWith(url, "http://") || StartsWith(url, "https://") then url else "http://" + url
  }

  /** Prefixing twice is prefixing once. */
  lemma LoginUrlIdempotent(url: string)
    ensures LoginUrl(LoginUrl(url)) == LoginUrl(url)
  {
  }

  /**
   * `get_grid_status`: the stripped text of the grid link when the element
   * is found, `None` when it is missing or the lookup raises.
   */
  function GridStatus(linkText: Option<string>): (r: Option<string>)
    ensures r.Some? <==> linkText.Some?
    ensures r.Some? ==> exists i :: PaddedBy(linkText.value, r.value, i)
    ensures r.Some? ==> r.value == [] || (!IsSpace(r.value[0]) && !IsSpace(r.value[|r.value| - 1]))
  {
    match linkText
    case None => None
    case Some(t) => Some(Strip(t))
  }

  /** Reading the status again after it was stripped gives the same status. */
  lemma GridStatusStable(linkText: string)
    ensures GridStatus(Some(GridStatus(Some(linkText)).value)) == GridStatus(Some(linkText))
  {
    var s := Strip(linkText);
    StripUnpadded(s);
  }

  /** What the browser shows around one `perform_grid_action`. */
  datatype Page = Page(
    before: Option<string>,       // `get_grid_status()` before acting
    clickable: bool,              // the link is found clickable
    raised: Option<string>,       // the click or the wait raised this error
    appeared: bool,               // the expected text appeared within the wait
    after: Option<string>)        // `get_grid_status()` after the wait

  /** The link text the action should lead to. */
  function ExpectedAfter(action: string): (e: string)
    ensures e == DisconnectGrid <==> action == "ON"
    ensures e == ConnectGrid <==> action != "ON"
  {
    if action == "ON" then DisconnectGrid else ConnectGrid
  }

  /** The grid is already where the action wants it. */
  predicate AlreadyThere(action: string, current: string) {
    (action == "ON" && current == DisconnectGrid) || (action == "OFF" && current == ConnectGrid)
  }

  /** The grid is in the state opposite to the one the action wants. */
  predicate Opposite(action: string, current: string) {
    (action == "ON" && current == ConnectGrid) || (action == "OFF" && current == DisconnectGrid)
  }

  /** Python's `f"{x}"` for an optional string. */
  function Show(x: Option<string>): string {
    x.GetOr("None")
  }

  const NoStatusMessage := "Không thể xác định trạng thái hiện tại"
  const NoElementMessage := "Không tìm thấy element điều khiển grid"

  /** The markers the processors look for in a controller's message. */
  const SkipMarker := "BỎ QUA"
  const ErrorMarker := "LỖI"
  const OppositeMarker := "ngược lại"

  /** "BỎ QUA: Đã ở trạng thái mong muốn (<current>)" */
  function SkipMessage(current: string): string {
    SkipMarker + ": Đã ở trạng thái mong muốn (" + current + ")"
  }

  /** "LỖI: Đang ở trạng thái ngược lại (<current>)" */
  function OppositeMessage(current: string): string {
    ErrorMarker + ": Đang ở trạng thái " + OppositeMarker + " (" + current + ")"
  }

  /** The step the controller takes before any click. */
  datatype Decision = Finish(success: bool, message: string) | ClickFor(expected: string)

  /** The pre-click decision of `perform_grid_action`. */
  function Decide(action: string, current: Option<string>): (d: Decision)
    ensures current == None || current == Some("") ==> d == Finish(false, NoStatusMessage)
    ensures current.Some? && current.value != "" && AlreadyThere(action, current.value) ==>
      d == Finish(true, SkipMessage(current.value))
    ensures current.Some? && current.value != "" && Opposite(action, current.value) ==>
      d == Finish(false, OppositeMessage(current.value))
    ensures d.ClickFor? <==>
      current.Some? && current.value != "" && !AlreadyThere(action, current.value) && !Opposite(action, current.value)
    ensures d.ClickFor? ==> d.expected == ExpectedAfter(action)
  {
    if current == None || current == Some("") then Finish(false, NoStatusMessage)
    else if AlreadyThere(action, current.value) then Finish(true, SkipMessage(current.value))
    else if Opposite(action, current.value) then Finish(false, OppositeMessage(current.value))
    else ClickFor(ExpectedAfter(action))
  }

  /**
   * The package controller clicks only for a status it does not recognise
   * or an action other than ON/OFF: for ON and OFF on either label it never clicks.
   */
  lemma NeverClicksOnKnownLabel(action: string, current: string)
    requires action == "ON" || action == "OFF"
    requires current == ConnectGrid || current == DisconnectGrid
    ensures Decide(action, Some(current)).Finish?
  {
  }

  /** `perform_grid_action`: the decision, then the click and the judgement of its effect. */
  function PerformGridAction(action: string, page: Page): (r: (bool, string))
    ensures Decide(action, page.before).Finish? ==>
      r == (Decide(action, page.before).success, Decide(action, page.before).message)
    ensures Decide(action, page.before).ClickFor? ==>
      (r.0 <==> page.clickable && page.raised == None && page.appeared)
  {
    match Decide(action, page.before)
    case Finish(ok, msg) => (ok, msg)
    case ClickFor(expected) =>
      if !page.clickable then (false, NoElementMessage)
      else if page.raised.Some? then (false, "LỖI THỰC HIỆN: " + page.raised.value)
      else if page.appeared then
        (true, "THÀNH CÔNG: Chuyển từ '" + page.before.value + "' sang '" + Show(page.after) + "'")
      else (false, "LỖI: Trạng thái không thay đổi (Hiện tại: " + Show(page.after) + ")")
  }

  /** The skip message carries the marker the processor looks for. */
  lemma SkipMessageMarked(current: string)
    ensures Contains(SkipMessage(current), SkipMarker)
  {
    ContainsMiddle("", SkipMarker, ": Đã ở trạng thái mong muốn (" + current + ")");
    assert SkipMessage(current) == "" + SkipMarker + (": Đã ở trạng thái mong muốn (" + current + ")");
  }

  /** The refusal message carries both error markers, and not the skip marker. */
  lemma OppositeMessageMarked(current: string)
    requires current == ConnectGrid || current == DisconnectGrid
    ensures Contains(OppositeMessage(current), ErrorMarker)
    ensures Contains(OppositeMessage(current), OppositeMarker)
    ensures !Contains(OppositeMessage(current), SkipMarker)
  {
    OppositeHasError(current);
    OppositeHasOpposite(current);
    OppositeNoSkip(current);
  }

  lemma OppositeHasError(current: string)
    ensures Contains(OppositeMessage(current), ErrorMarker)
  {
    ContainsMiddle("", ErrorMarker, ": Đang ở trạng thái " + OppositeMarker + " (" + current + ")");
    assert OppositeMessage(current) == "" + ErrorMarker + (": Đang ở trạng thái " + OppositeMarker + " (" + current + ")");
  }

  lemma OppositeHasOpposite(current: string)
    ensures Contains(OppositeMessage(current), OppositeMarker)
  {
    var tail := " (" + current + ")";
    ContainsMiddle(ErrorMarker + ": Đang ở trạng thái ", OppositeMarker, tail);
    assert OppositeMessage(current) == (ErrorMarker + ": Đang ở trạng thái ") + OppositeMarker + tail;
  }

  lemma OppositeNoSkip(current: string)
    requires current == ConnectGrid || current == DisconnectGrid
    ensures !Contains(OppositeMessage(current), SkipMarker)
  {
    var tail := " (" + current + ")";
    assert 'B' !in ErrorMarker && 'B' !in ": Đang ở trạng thái " && 'B' !in OppositeMarker;
    assert 'B' !in tail;
    FirstCharAbsent(OppositeMessage(current), SkipMarker);
  }
}
