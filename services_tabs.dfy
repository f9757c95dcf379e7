/**
 * The services tabs of js/main.js (`initServicesTabs`), which switch on
 * hover. `tabs[i]` and `panels[i]` say whether tab `i` and panel `i` carry
 * the `active` class; `panelOf[t]` is the panel that
 * `document.getElementById(tab.dataset.tab)` finds for tab `t`, if any.
 */
module ServicesTabs {
  import opened Flags

  datatype Option<T> = None | Some(value: T)

  /** The active flags of the tabs and of the panels. */
  datatype View = View(tabs: seq<bool>, panels: seq<bool>)

  /** Every tab names either no element or one of the panels. */
  predicate PanelsExist(panelOf: seq<Option<nat>>, count: nat) {
    forall t :: 0 <= t < |panelOf| && panelOf[t].Some? ==> panelOf[t].value < count
  }

  /** Exactly the panel `p` is active (no panel at all when `p` is `None`). */
  predicate ActiveExactly(panels: seq<bool>, p: Option<nat>) {
    forall i :: 0 <= i < |panels| ==> (panels[i] <==> p == Some(i))
  }

  /** `document.querySelector('.services__tab-panel.active')`: the first active panel, if any. */
  function FirstActive(panels: seq<bool>): (r: Option<nat>)
    ensures r.Some? ==> r.value < |panels| && panels[r.value]
    ensures r.Some? ==> forall i :: 0 <= i < r.value ==> !panels[i]
    ensures r.None? ==> forall i :: 0 <= i < |panels| ==> !panels[i]
  {
    if panels == [] then None
    else if panels[0] then Some(0)
    else
      match FirstActive(panels[1..])
      case None => None
      case Some(p) => Some(p + 1)
  }

  /**
   * The tabs and panels after the pointer enters tab `t`: nothing changes
   * when the first active panel is already the one the tab names (or both
   * are absent); otherwise tab `t` becomes the only active tab, the old
   * panel is deactivated and the named panel, if there is one, activated.
   */
  function Hovered(v: View, panelOf: seq<Option<nat>>, t: nat): (r: View)
    requires t < |v.tabs| && |panelOf| == |v.tabs| && PanelsExist(panelOf, |v.panels|)
    ensures |r.tabs| == |v.tabs| && |r.panels| == |v.panels|
    ensures FirstActive(v.panels) == panelOf[t] ==> r == v
    ensures FirstActive(v.panels) != panelOf[t] ==> forall i :: 0 <= i < |r.tabs| ==> (r.tabs[i] <==> i == t)
    ensures FirstActive(v.panels) != panelOf[t] && FirstActive(v.panels).Some? ==>
      !r.panels[FirstActive(v.panels).value]
    ensures panelOf[t].Some? ==> r.panels[panelOf[t].value]
    ensures forall i :: 0 <= i < |r.panels| && Some(i) != FirstActive(v.panels) && Some(i) != panelOf[t] ==>
      r.panels[i] == v.panels[i]
  {
    var current := FirstActive(v.panels);
    var target := panelOf[t];
    if current == target then v
    else
      var cleared := if current.Some? then v.panels[current.value := false] else v.panels;
      var shown := if target.Some? then cleared[target.value := true] else cleared;
      View(seq(|v.tabs|, i => i == t), shown)
  }

  /** When exactly the panel `p` is active, `p` is the first active panel. */
  lemma {:induction false} FirstOfExactly(panels: seq<bool>, p: Option<nat>)
    requires ActiveExactly(panels, p)
    requires p.Some? ==> p.value < |panels|
    ensures FirstActive(panels) == p
  {
    if p.Some? {
      assert panels[p.value];
    }
  }

  /**
   * When at most one panel was active, after a hover on tab `t` exactly the
   * panel it names is active, and none when it names none.
   */
  lemma {:induction false} HoverShowsOnePanel(v: View, panelOf: seq<Option<nat>>, t: nat)
    requires t < |v.tabs| && |panelOf| == |v.tabs| && PanelsExist(panelOf, |v.panels|)
    requires AtMostOne(v.panels)
    ensures ActiveExactly(Hovered(v, panelOf, t).panels, panelOf[t])
  {
    var r := Hovered(v, panelOf, t);
    var current := FirstActive(v.panels);
    forall i | 0 <= i < |r.panels|
      ensures r.panels[i] <==> panelOf[t] == Some(i)
    {
      if v.panels[i] {
        assert current.Some?;
        assert current.value == i;
      }
    }
  }

  /** With at most one active panel, a second hover on the same tab changes nothing. */
  lemma {:induction false} HoverIdempotent(v: View, panelOf: seq<Option<nat>>, t: nat)
    requires t < |v.tabs| && |panelOf| == |v.tabs| && PanelsExist(panelOf, |v.panels|)
    requires AtMostOne(v.panels)
    ensures Hovered(Hovered(v, panelOf, t), panelOf, t) == Hovered(v, panelOf, t)
  {
    var r := Hovered(v, panelOf, t);
    HoverShowsOnePanel(v, panelOf, t);
    FirstOfExactly(r.panels, panelOf[t]);
  }

  /** The `mouseenter` handler of tab `t`, on the tabs' and panels' flags in place. */
  method Hover(tabs: array<bool>, panels: array<bool>, panelOf: seq<Option<nat>>, t: nat)
    requires tabs != panels
    requires t < tabs.Length && |panelOf| == tabs.Length && PanelsExist(panelOf, panels.Length)
    modifies tabs, panels
    ensures View(tabs[..], panels[..]) == Hovered(View(old(tabs[..]), old(panels[..])), panelOf, t)
  {
    var currentPanel := FirstActive(panels[..]);
    var newPanel := panelOf[t];
    if currentPanel == newPanel {
      return;
    }
    var j := 0;
    while j < tabs.Length
      invariant 0 <= j <= tabs.Length
      invariant forall i :: 0 <= i < j ==> !tabs[i]
      invariant panels[..] == old(panels[..])
    {
      tabs[j] := false;
      j := j + 1;
    }
    tabs[t] := true;
    if currentPanel.Some? {
      panels[currentPanel.value] := false;
    }
    if newPanel.Some? {
      panels[newPanel.value] := true;
    }
    assert tabs[..] == seq(tabs.Length, i => i == t);
  }
}
