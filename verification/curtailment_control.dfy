/**
 * The grid control of the all-in-one script (`InverterController` in
 * `curtailment.py`): `get_grid_status` turns the grid link's text and icon
 * into a label, and `perform_grid_action` clicks only when the grid is in
 * the state opposite to the one requested, then polls the label up to six
 * times to judge the click.
 *
 * Unlike the package controller, this one clicks from the opposite state
 * and treats every other state, recognised or not, as already done. The
 * browser is replaced by a `Page` record of what each read would show.
 */
module CurtailmentControl {
  import opened Wrappers
  import opened Strings
  import Controller

  const ConnectGrid := Controller.ConnectGrid
  const DisconnectGrid := Controller.DisconnectGrid

  /** The grid link's icon child: its `src` attribute, `None` when the attribute is missing. */
  datatype Icon = Icon(src: Option<string>)

  /**
   * The grid link as the page shows it: the text of its status span and its
   * icon, each `None` when that child element is missing.
   */
  datatype Link = Link(span: Option<string>, icon: Option<Icon>)

  /** Both children are there, so neither child lookup raises. */
  predicate Complete(l: Link) {
    l.span.Some? && l.icon.Some?
  }

  /** The text names one of the two states. */
  predicate Labelled(t: string) {
    Contains(t, DisconnectGrid) || Contains(t, ConnectGrid)
  }

  /**
   * `get_grid_status`: `None` when the link is missing, and `None` when the
   * link lacks its span or its icon, since the child lookup raises before
   * any test. Otherwise the label the stripped text names ("Disconnect
   * Grid" first), else the label the icon names ("flash_off" first), else
   * the stripped text itself. An icon without `src` makes the icon test
   * raise, which also gives `None`.
   */
  function GridStatus(link: Option<Link>): (r: Option<string>)
    ensures r == None <==>
      link == None || !Complete(link.value)
      || (!Labelled(Strip(link.value.span.value)) && link.value.icon.value.src == None)
    ensures r.Some? ==> link.Some? && Complete(link.value)
    ensures r.Some? ==>
      r.value == ConnectGrid || r.value == DisconnectGrid || r.value == Strip(link.value.span.value)
    ensures link.Some? && Complete(link.value) && Contains(Strip(link.value.span.value), DisconnectGrid) ==>
      r == Some(DisconnectGrid)
    ensures r.Some? && !Labelled(Strip(link.value.span.value)) && r.value != Strip(link.value.span.value) ==>
      var src := link.value.icon.value.src.value;
      (r.value == DisconnectGrid <==> Contains(src, "flash_off"))
      && (r.value == ConnectGrid <==> !Contains(src, "flash_off") && Contains(src, "flash_on"))
  {
    match link
    case None => None
    case Some(l) =>
      if l.span == None || l.icon == None then None
      else
        var text := Strip(l.span.value);
        var src := l.icon.value.src;
        if Contains(text, DisconnectGrid) then Some(DisconnectGrid)
        else if Contains(text, ConnectGrid) then Some(ConnectGrid)
        else if src == None then None
        else if Contains(src.value, "flash_off") then Some(DisconnectGrid)
        else if Contains(src.value, "flash_on") then Some(ConnectGrid)
        else Some(text)
  }

  /**
   * With both children present, a text that names a state decides alone:
   * the icon's `src` does not change the status.
   */
  lemma TextBeforeIcon(text: string, src1: Option<string>, src2: Option<string>)
    requires Labelled(Strip(text))
    ensures GridStatus(Some(Link(Some(text), Some(Icon(src1))))) == GridStatus(Some(Link(Some(text), Some(Icon(src2)))))
    ensures GridStatus(Some(Link(Some(text), Some(Icon(src1))))).Some?
  {
  }

  /** A missing child gives no status, even when the text names a state. */
  lemma MissingChildNoStatus(text: Option<string>, icon: Option<Icon>)
    requires text == None || icon == None
    ensures GridStatus(Some(Link(text, icon))) == None
  {
  }

  /** A link whose span shows `t` and whose icon has an empty `src`. */
  function Showing(t: string): Link {
    Link(Some(t), Some(Icon(Some(""))))
  }

  /** Every string contains itself. */
  lemma ContainsSelf(s: string)
    ensures Contains(s, s)
  {
    assert s[..|s|] == s;
  }

  /** "Connect Grid" does not contain "Disconnect Grid". */
  lemma ConnectLacksDisconnect()
    ensures !Contains(ConnectGrid, DisconnectGrid)
  {
    FirstCharAbsent(ConnectGrid, DisconnectGrid);
  }

  /** A label shown as the text, with an empty icon, reads back as that label. */
  lemma LabelReadBack(shown: string)
    requires shown == ConnectGrid || shown == DisconnectGrid
    ensures GridStatus(Some(Showing(shown))) == Some(shown)
  {
    StripUnpadded(shown);
    ContainsSelf(shown);
    if shown == ConnectGrid {
      ConnectLacksDisconnect();
    }
  }

  /** A stripped text naming no state, with an empty icon, reads back as itself. */
  lemma TextReadBack(t: string)
    requires Strip(t) == t && !Labelled(t)
    ensures GridStatus(Some(Showing(t))) == Some(t)
  {
    assert !Contains("", "flash_off") && !Contains("", "flash_on");
  }

  /** A status shown as the link's text, with an empty icon, is read back unchanged. */
  lemma GridStatusStable(link: Option<Link>)
    requires GridStatus(link).Some?
    ensures GridStatus(Some(Showing(GridStatus(link).value))) == GridStatus(link)
  {
    var r := GridStatus(link).value;
    if r == ConnectGrid || r == DisconnectGrid {
      LabelReadBack(r);
    } else {
      var text := Strip(link.value.span.value);
      assert r == text && !Labelled(text);
      StripUnpadded(text);
      TextReadBack(text);
    }
  }

  /** The label the action wants to see afterwards. */
  function Target(action: string): string {
    if action == "ON" then DisconnectGrid else ConnectGrid
  }

  /** The label from which the action has something to do. */
  function Source(action: string): string {
    if action == "ON" then ConnectGrid else DisconnectGrid
  }

  const InvalidActionPrefix := "Hành động không hợp lệ: "

  /** "BỎ QUA: Đã ở trạng thái mong muốn (Hiện tại: <current>)" */
  function SkipMessage(current: string): string {
    Controller.SkipMarker + ": Đã ở trạng thái mong muốn (Hiện tại: " + current + ")"
  }

  /** The step the controller takes before any click. */
  datatype Decision = Finish(success: bool, message: string) | ClickFor(expected: string)

  /** The pre-click decision of `perform_grid_action`. */
  function Decide(action: string, current: Option<string>): (d: Decision)
    ensures current == None || current == Some("") ==> d == Finish(false, Controller.NoStatusMessage)
    ensures current.Some? && current.value != "" && action != "ON" && action != "OFF" ==>
      d == Finish(false, InvalidActionPrefix + action)
    ensures d.ClickFor? <==> (action == "ON" || action == "OFF") && current == Some(Source(action))
    ensures d.ClickFor? ==> d.expected == Target(action) && d.expected != current.value
    ensures (action == "ON" || action == "OFF") && current.Some? && current.value !in {"", Source(action)} ==>
      d == Finish(true, SkipMessage(current.value))
  {
    if current == None || current.value == "" then Finish(false, Controller.NoStatusMessage)
    else if action != "ON" && action != "OFF" then Finish(false, InvalidActionPrefix + action)
    else if current.value == Source(action) then ClickFor(Target(action))
    else Finish(true, SkipMessage(current.value))
  }

  /**
   * On a recognised label the two controllers part ways exactly in the
   * opposite state: the package controller refuses there, this one clicks.
   */
  lemma ClicksWherePackageRefuses(action: string, current: string)
    requires action == "ON" || action == "OFF"
    requires current == ConnectGrid || current == DisconnectGrid
    ensures Decide(action, Some(current)).ClickFor? <==> Controller.Opposite(action, current)
    ensures Controller.Opposite(action, current) ==>
      Controller.Decide(action, Some(current)) == Controller.Finish(false, Controller.OppositeMessage(current))
  {
  }

  /** On an unrecognised status the package controller clicks, while this one reports success without clicking. */
  lemma SkipsWherePackageClicks(action: string, current: string)
    requires action == "ON" || action == "OFF"
    requires current !in {"", ConnectGrid, DisconnectGrid}
    ensures Decide(action, Some(current)) == Finish(true, SkipMessage(current))
    ensures Controller.Decide(action, Some(current)).ClickFor?
  {
  }

  /** The number of status reads after the click. */
  const MaxPolls: nat := 6

  /**
   * Whether the wait after the click, from poll `i` on, ends on `expected`:
   * it ends at the first poll that shows `expected` or leaves `current`.
   */
  function SettlesOn(current: string, expected: string, polls: nat -> Option<string>, i: nat): bool
    decreases MaxPolls - i
  {
    if i >= MaxPolls then false
    else if polls(i) == Some(expected) then true
    else if polls(i) != Some(current) then false
    else SettlesOn(current, expected, polls, i + 1)
  }

  /** The click worked iff some poll shows `expected` and every poll before it still shows `current`. */
  lemma {:induction false} SettlesOnMeans(current: string, expected: string, polls: nat -> Option<string>, i: nat)
    ensures SettlesOn(current, expected, polls, i) <==>
      exists k :: i <= k < MaxPolls && polls(k) == Some(expected)
        && forall j :: i <= j < k ==> polls(j) == Some(current)
    decreases MaxPolls - i
  {
    if i < MaxPolls && polls(i) != Some(expected) && polls(i) == Some(current) {
      SettlesOnMeans(current, expected, polls, i + 1);
      if SettlesOn(current, expected, polls, i) {
        var k :| i + 1 <= k < MaxPolls && polls(k) == Some(expected)
          && forall j :: i + 1 <= j < k ==> polls(j) == Some(current);
        assert forall j :: i <= j < k ==> polls(j) == Some(current);
      }
    } else if i < MaxPolls && polls(i) != Some(expected) {
      forall k | i <= k < MaxPolls && polls(k) == Some(expected)
        ensures exists j :: i <= j < k && polls(j) != Some(current)
      {
        assert i <= i < k && polls(i) != Some(current);
      }
    } else if i < MaxPolls {
      assert polls(i) == Some(expected);
    }
  }

  /**
   * The poll loop of `perform_grid_action`: read the status every half
   * second, at most six times, stopping at the first read that shows
   * `expected` (success) or anything other than `current` (failure).
   */
  method AwaitChange(current: string, expected: string, polls: nat -> Option<string>) returns (changed: bool, pollCount: nat)
    ensures changed == SettlesOn(current, expected, polls, 0)
    ensures 1 <= pollCount <= MaxPolls
    ensures forall j :: 0 <= j < pollCount - 1 ==> polls(j) == Some(current)
  {
    changed := false;
    var i := 0;
    while i < MaxPolls
      invariant 0 <= i <= MaxPolls
      invariant SettlesOn(current, expected, polls, 0) == SettlesOn(current, expected, polls, i)
      invariant forall j :: 0 <= j < i ==> polls(j) == Some(current)
    {
      var newStatus := polls(i);
      if newStatus == Some(expected) {
        changed := true;
        break;
      } else if newStatus != Some(current) {
        break;
      }
      i := i + 1;
    }
    pollCount := if i < MaxPolls then i + 1 else MaxPolls;
  }

  /** What the scroll and double click raise, if anything. */
  datatype Fault = Stale | Error(message: string)

  /** What the browser shows around one `perform_grid_action`. */
  datatype Page = Page(
    before: Option<string>,          // `get_grid_status()` before acting
    clickable: bool,                 // the link is found clickable
    raised: Option<Fault>,           // the scroll or the double click raised this
    polls: nat -> Option<string>,    // `get_grid_status()` at each poll after the click
    after: Option<string>,           // `get_grid_status()` once the wait is over
    retryClickable: bool,            // after a stale element: the link is found again
    retryRaised: Option<string>,     // after a stale element: the second click raised this
    retryAfter: Option<string>)      // after a stale element: `get_grid_status()` two seconds later

  /** "THÀNH CÔNG: Chuyển từ '<from>' sang '<to>'" */
  function SuccessMessage(from: string, to: Option<string>): string {
    "THÀNH CÔNG: Chuyển từ '" + from + "' sang '" + Controller.Show(to) + "'"
  }

  /** The click after a stale element: find the link again, click, and read the status once. */
  function StaleRetry(current: string, expected: string, page: Page): (r: (bool, string)) {
    if page.retryRaised.Some? then (false, "LỖI THỰC HIỆN (retry): " + page.retryRaised.value)
    else if !page.retryClickable then (false, "LỖI: Không thể tìm thấy element sau khi retry")
    else if page.retryAfter == Some(expected) then (true, SuccessMessage(current, page.retryAfter))
    else (false, "LỖI: Trạng thái không thay đổi (Hiện tại: " + Controller.Show(page.retryAfter) + ")")
  }

  /** The result of `perform_grid_action`: the decision, then the click and the judgement of its effect. */
  function GridAction(action: string, page: Page): (r: (bool, string))
  {
    var current := page.before;
    match Decide(action, current)
    case Finish(ok, message) => (ok, message)
    case ClickFor(expected) =>
      if !page.clickable then (false, Controller.NoElementMessage)
      else if page.raised == Some(Stale) then StaleRetry(current.value, expected, page)
      else if page.raised.Some? then (false, "LỖI THỰC HIỆN: " + page.raised.value.message)
      else if SettlesOn(current.value, expected, page.polls, 0) then
        (true, SuccessMessage(current.value, page.after))
      else
        (false, "LỖI: Trạng thái không thay đổi như mong đợi (Hiện tại: " + Controller.Show(page.after)
                + ", Mong đợi: " + expected + ")")
  }

  /** `perform_grid_action`, with the poll loop run step by step. */
  method PerformGridAction(action: string, page: Page) returns (success: bool, message: string)
    ensures (success, message) == GridAction(action, page)
  {
    var current := page.before;
    var decision := Decide(action, current);
    if decision.Finish? {
      return decision.success, decision.message;
    }
    var expected := decision.expected;
    if !page.clickable {
      return false, Controller.NoElementMessage;
    }
    if page.raised == Some(Stale) {
      success, message := StaleRetry(current.value, expected, page).0, StaleRetry(current.value, expected, page).1;
      return;
    }
    if page.raised.Some? {
      return false, "LỖI THỰC HIỆN: " + page.raised.value.message;
    }
    var statusChanged, pollCount := AwaitChange(current.value, expected, page.polls);
    var finalStatus := page.after;
    if statusChanged {
      success, message := true, SuccessMessage(current.value, finalStatus);
    } else {
      success := false;
      message := "LỖI: Trạng thái không thay đổi như mong đợi (Hiện tại: " + Controller.Show(finalStatus)
                 + ", Mong đợi: " + expected + ")";
    }
  }

  /**
   * A reported success is either a state already reached (no click), or a
   * click after which some read showed the requested state: a poll whose
   * predecessors all still showed the starting state, or the single read
   * after a stale-element retry.
   */
  lemma SuccessMeansTargetSeen(action: string, page: Page)
    requires GridAction(action, page).0
    ensures var current := page.before;
      Decide(action, current).Finish?
      || (exists k :: 0 <= k < MaxPolls && page.polls(k) == Some(Target(action))
            && forall j :: 0 <= j < k ==> page.polls(j) == current)
      || (page.raised == Some(Stale) && page.retryAfter == Some(Target(action)))
  {
    var current := page.before;
    var d := Decide(action, current);
    if d.ClickFor? && page.raised == Some(Stale) {
      StaleSettled(action, page);
    } else if d.ClickFor? {
      ClickSettled(action, page);
      SettlesOnMeans(current.value, d.expected, page.polls, 0);
    }
  }

  /** A successful retry after a stale element was judged by its single read. */
  lemma StaleSettled(action: string, page: Page)
    requires GridAction(action, page).0
    requires Decide(action, page.before).ClickFor? && page.raised == Some(Stale)
    ensures page.retryAfter == Some(Target(action))
  {
  }

  /** A successful click without a stale element was judged by the polls. */
  lemma ClickSettled(action: string, page: Page)
    requires GridAction(action, page).0
    requires Decide(action, page.before).ClickFor? && page.raised != Some(Stale)
    ensures SettlesOn(page.before.value, Target(action), page.polls, 0)
  {
  }

  /** A click is never made when the grid is already in the requested state. */
  lemma NoClickAtTarget(action: string, page: Page)
    requires action == "ON" || action == "OFF"
    requires page.before == Some(Target(action))
    ensures GridAction(action, page) == (true, SkipMessage(Target(action)))
  {
  }
}
