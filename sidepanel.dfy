/**
 * The side-panel installer of src/sidepanel.ts: which host listeners it
 * installs, and the per-tab rule that enables the panel on the tabs whose
 * origin is one of the filter's.
 *
 * `new URL(u).origin` is an input function that fails where the URL
 * constructor throws.
 */
module SidePanel {
  import opened Wrappers
  import opened Js
  import opened Host

  /** `Partial<InstallSidePanelOptions>`. */
  datatype SidePanelOptions = SidePanelOptions(
    filter: Prop<seq<string>>,
    action: Prop<bool>,
    sidePanelLocation: Prop<string>)

  const NoOptions := SidePanelOptions(Omitted, Omitted, Omitted)

  const DefaultLocation: string := "/documents/sidepanel/dist/index.html"

  /** The options after defaulting. */
  datatype ResolvedOptions = ResolvedOptions(
    filter: Option<seq<string>>,
    action: Option<bool>,
    sidePanelLocation: Option<string>)

  /** `{filter: undefined, action: false, sidePanelLocation: '/documents/sidepanel/dist/index.html', ...options}`. */
  function Defaults(o: SidePanelOptions): (r: ResolvedOptions)
    ensures r.filter == Spread(None, o.filter)
    ensures r.action == Spread(Some(false), o.action)
    ensures r.sidePanelLocation == Spread(Some(DefaultLocation), o.sidePanelLocation)
  {
    ResolvedOptions(
      Spread(None, o.filter),
      Spread(Some(false), o.action),
      Spread(Some(DefaultLocation), o.sidePanelLocation))
  }

  /** With no options, nothing is filtered, clicks are ignored, and the panel is the default page. */
  lemma DefaultsApplied()
    ensures Defaults(NoOptions) == ResolvedOptions(None, Some(false), Some("/documents/sidepanel/dist/index.html"))
  {
  }

  /** A `chrome.sidePanel.setOptions` call. */
  datatype PanelSetting = PanelSetting(tabId: int, path: Option<string>, enabled: bool)

  /** The tab-update listener, with the options it captured. */
  datatype UpdateRule = UpdateRule(filter: seq<string>, location: Option<string>)

  /** What `installSidePanel` registers with the host. */
  datatype Installation = Installation(actionListener: bool, updateListener: Option<UpdateRule>)

  /** `installSidePanel(options)`. */
  function Install(options: SidePanelOptions): (i: Installation)
    ensures i.actionListener <==> Defaults(options).action == Some(true)
    ensures i.updateListener.Some? <==> Defaults(options).filter.Some? && |Defaults(options).filter.value| > 0
    ensures i.updateListener.Some? ==>
              i.updateListener.value == UpdateRule(Defaults(options).filter.value, Defaults(options).sidePanelLocation)
  {
    var o := Defaults(options);
    Installation(
      IsSet(o.action),
      if o.filter.Some? && |o.filter.value| > 0 then Some(UpdateRule(o.filter.value, o.sidePanelLocation)) else None)
  }

  /** With no options neither listener is installed. */
  lemma NothingByDefault()
    ensures Install(NoOptions) == Installation(false, None)
  {
  }

  /** The action-click listener: the tab whose panel is opened, if the tab has an id. */
  function OnActionClicked(tab: Tab): (panelTab: Option<int>)
    ensures panelTab.None? <==> tab.id.None?
    ensures panelTab.Some? ==> panelTab.value == tab.id.value
  {
    match tab.id
    case None => None
    case Some(id) => Some(id)
  }

  /**
   * `filter.some((u) => new URL(u).origin === target)`: entries are tried in
   * order, a URL that cannot be parsed throws, and the first match stops.
   */
  function SomeSameOrigin(filter: seq<string>, target: string, origin: string -> Result<string, string>)
    : (r: Result<bool, string>)
    ensures r == Success(true) ==> exists k :: 0 <= k < |filter| && origin(filter[k]) == Success(target)
    ensures r.Failure? ==> exists k :: 0 <= k < |filter| && origin(filter[k]) == Failure(r.error)
  {
    if |filter| == 0 then Success(false)
    else
      match origin(filter[0])
      case Failure(e) => Failure(e)
      case Success(o) =>
        if o == target then Success(true) else SomeSameOrigin(filter[1..], target, origin)
  }

  /**
   * The search finds a match exactly when some entry has the target
   * origin and every entry before the first such one parses; it fails
   * exactly when an entry that does not parse comes before any match.
   */
  lemma {:induction false} SomeSameOriginSpec(filter: seq<string>, target: string, origin: string -> Result<string, string>)
    ensures SomeSameOrigin(filter, target, origin) == Success(true) <==>
            exists k :: 0 <= k < |filter| && origin(filter[k]) == Success(target)
                        && forall j :: 0 <= j < k ==> origin(filter[j]).Success?
    ensures SomeSameOrigin(filter, target, origin) == Success(false) <==>
            forall k :: 0 <= k < |filter| ==> origin(filter[k]).Success? && origin(filter[k]).value != target
  {
    if |filter| > 0 {
      SomeSameOriginSpec(filter[1..], target, origin);
      assert forall k :: 0 < k < |filter| ==> filter[k] == filter[1..][k - 1];
      if origin(filter[0]).Success? && origin(filter[0]).value != target {
        var r := SomeSameOrigin(filter, target, origin);
        if r == Success(true) {
          var k :| 0 <= k < |filter[1..]| && origin(filter[1..][k]) == Success(target)
                   && forall j :: 0 <= j < k ==> origin(filter[1..][j]).Success?;
          assert origin(filter[k + 1]) == Success(target);
          assert forall j :: 0 <= j < k + 1 ==> origin(filter[j]).Success? by {
            forall j | 0 <= j < k + 1 ensures origin(filter[j]).Success? {
              if j > 0 {
                assert filter[j] == filter[1..][j - 1];
              }
            }
          }
        }
        if exists k :: 0 <= k < |filter| && origin(filter[k]) == Success(target)
                       && forall j :: 0 <= j < k ==> origin(filter[j]).Success? {
          var k :| 0 <= k < |filter| && origin(filter[k]) == Success(target)
                   && forall j :: 0 <= j < k ==> origin(filter[j]).Success?;
          assert k > 0;
          assert origin(filter[1..][k - 1]) == Success(target);
          assert forall j :: 0 <= j < k - 1 ==> origin(filter[1..][j]).Success? by {
            forall j | 0 <= j < k - 1 ensures origin(filter[1..][j]).Success? {
              assert filter[1..][j] == filter[j + 1];
            }
          }
        }
      }
    }
  }

  /**
   * The tab-update listener on an update of tab `tabId`: nothing for a
   * tab without a URL; a throw when the tab's URL or a filter entry before
   * the first match does not parse; otherwise one `setOptions` call.
   */
  function OnUpdated(rule: UpdateRule, tabId: int, tab: Tab, origin: string -> Result<string, string>)
    : (r: Result<Option<PanelSetting>, string>)
    ensures (tab.url.None? || tab.url.value == "") ==> r == Success(None)
  {
    if tab.url.None? || tab.url.value == "" then Success(None)
    else
      match origin(tab.url.value)
      case Failure(e) => Failure(e)
      case Success(target) =>
        match SomeSameOrigin(rule.filter, target, origin)
        case Failure(e) => Failure(e)
        case Success(true) => Success(Some(PanelSetting(tabId, rule.location, true)))
        case Success(false) => Success(Some(PanelSetting(tabId, None, false)))
  }

  /**
   * Where every URL parses, an update with a URL enables the panel at the
   * configured location exactly when some filter entry shares the tab's
   * origin, and disables it, with no path, otherwise.
   */
  lemma EnableRule(rule: UpdateRule, tabId: int, tab: Tab, origin: string -> Result<string, string>)
    requires tab.url.Some? && tab.url.value != ""
    requires origin(tab.url.value).Success?
    requires forall k :: 0 <= k < |rule.filter| ==> origin(rule.filter[k]).Success?
    ensures var target := origin(tab.url.value).value;
            OnUpdated(rule, tabId, tab, origin) ==
            if exists k :: 0 <= k < |rule.filter| && origin(rule.filter[k]).value == target
            then Success(Some(PanelSetting(tabId, rule.location, true)))
            else Success(Some(PanelSetting(tabId, None, false)))
  {
    SomeSameOriginSpec(rule.filter, origin(tab.url.value).value, origin);
  }

  /** A tab URL that does not parse makes the listener throw, whatever the filter. */
  lemma BadTabUrlThrows(rule: UpdateRule, tabId: int, tab: Tab, origin: string -> Result<string, string>)
    requires tab.url.Some? && tab.url.value != ""
    requires origin(tab.url.value).Failure?
    ensures OnUpdated(rule, tabId, tab, origin) == Failure(origin(tab.url.value).error)
  {
  }
}
