/**
 * The top-level menu bar's interaction state: which top-level menu, if
 * any, is open, anchored where. Three handlers overwrite that one cell;
 * each top-level entry is rendered with it.
 */
module MenuBarState {
  import opened Wrappers
  import opened Handles

  /** An open top-level menu: its position in the config and its anchor element. */
  datatype OpenMenu = OpenMenu(menuIndex: int, menuAnchor: Anchor)

  /** The keys that open a focused top-level trigger. */
  const OpeningKeys: seq<string> := ["Enter", " ", "ArrowDown"]

  predicate IsOpeningKey(key: string)
  {
    key in OpeningKeys
  }

  /** The events the bar's handlers receive. */
  datatype Event =
    | Click(index: int, anchor: Anchor)
    | Close
    | KeyDown(key: string, index: int, anchor: Anchor)

  /** Whether handling `e` calls `preventDefault` on it. */
  function PreventsDefault(e: Event): (r: bool)
    ensures r <==> e.KeyDown? && (e.key == "Enter" || e.key == " " || e.key == "ArrowDown")
  {
    e.KeyDown? && IsOpeningKey(e.key)
  }

  /** The open menu after handling `e` in state `s`. */
  function Transition(s: Option<OpenMenu>, e: Event): Option<OpenMenu>
  {
    match e
    case Click(i, a) => Some(OpenMenu(i, a))
    case Close => None
    case KeyDown(k, i, a) => if IsOpeningKey(k) then Some(OpenMenu(i, a)) else s
  }

  /** A click opens its menu whatever was open before: it never toggles closed. */
  lemma ClickAlwaysOpens(s: Option<OpenMenu>, i: int, a: Anchor)
    ensures Transition(s, Click(i, a)) == Some(OpenMenu(i, a))
  {
  }

  /** Closing leaves nothing open, and closing twice is closing once. */
  lemma CloseIdempotent(s: Option<OpenMenu>)
    ensures Transition(s, Close) == None
    ensures Transition(Transition(s, Close), Close) == Transition(s, Close)
  {
  }

  /** A key opens menu `i` exactly for Enter, Space and ArrowDown; other keys change nothing. */
  lemma KeyDownOpensOnlyOnOpeningKeys(s: Option<OpenMenu>, k: string, i: int, a: Anchor)
    ensures IsOpeningKey(k) <==> k == "Enter" || k == " " || k == "ArrowDown"
    ensures IsOpeningKey(k) ==> Transition(s, KeyDown(k, i, a)) == Some(OpenMenu(i, a))
    ensures !IsOpeningKey(k) ==> Transition(s, KeyDown(k, i, a)) == s
    ensures PreventsDefault(KeyDown(k, i, a)) <==> IsOpeningKey(k)
  {
  }

  /** Whether menu `i` is the open one. */
  predicate IsOpen(s: Option<OpenMenu>, i: int)
  {
    s.Some? && s.value.menuIndex == i
  }

  /** At most one top-level menu is open at a time. */
  lemma AtMostOneOpen(s: Option<OpenMenu>, i: int, j: int)
    requires IsOpen(s, i) && IsOpen(s, j)
    ensures i == j
  {
  }

  /** The state after handling `events` in order, starting from `s`. */
  function Run(s: Option<OpenMenu>, events: seq<Event>): Option<OpenMenu>
    decreases events
  {
    if events == [] then s else Run(Transition(s, events[0]), events[1..])
  }

  /** Whether `e` sets the state (every event but a non-opening key). */
  predicate Overwrites(e: Event)
  {
    !(e.KeyDown? && !IsOpeningKey(e.key))
  }

  /**
   * A reference reading of `Run`: the state is set by the last event that
   * overwrites it, or is still `s` when none does.
   */
  function LastWrite(s: Option<OpenMenu>, events: seq<Event>): Option<OpenMenu>
  {
    if events == [] then s
    else
      var e := events[|events| - 1];
      if Overwrites(e) then Transition(s, e) else LastWrite(s, events[..|events| - 1])
  }

  lemma {:induction false} RunSnoc(s: Option<OpenMenu>, events: seq<Event>, e: Event)
    ensures Run(s, events + [e]) == Transition(Run(s, events), e)
    decreases events
  {
    if events != [] {
      assert (events + [e])[1..] == events[1..] + [e];
      RunSnoc(Transition(s, events[0]), events[1..], e);
    }
  }

  /** Handling a sequence of events leaves exactly what its last overwriting event set. */
  lemma {:induction false} RunIsLastWrite(s: Option<OpenMenu>, events: seq<Event>)
    ensures Run(s, events) == LastWrite(s, events)
  {
    if events != [] {
      var init, e := events[..|events| - 1], events[|events| - 1];
      assert events == init + [e];
      RunSnoc(s, init, e);
      RunIsLastWrite(s, init);
      if Overwrites(e) {
        match e
        case Click(_, _) =>
        case Close =>
        case KeyDown(_, _, _) =>
      }
    }
  }

  lemma {:induction false} LastWriteForgetsStart(s1: Option<OpenMenu>, s2: Option<OpenMenu>, events: seq<Event>)
    requires exists k :: 0 <= k < |events| && Overwrites(events[k])
    ensures LastWrite(s1, events) == LastWrite(s2, events)
  {
    var e := events[|events| - 1];
    if !Overwrites(e) {
      var init := events[..|events| - 1];
      var k :| 0 <= k < |events| && Overwrites(events[k]);
      assert k < |init| && init[k] == events[k];
      LastWriteForgetsStart(s1, s2, init);
    }
  }

  /**
   * Once any click, close or opening key has been handled, the earlier
   * state no longer matters: handlers overwrite, they never toggle.
   */
  lemma RunForgetsStart(s1: Option<OpenMenu>, s2: Option<OpenMenu>, events: seq<Event>)
    requires exists k :: 0 <= k < |events| && Overwrites(events[k])
    ensures Run(s1, events) == Run(s2, events)
  {
    RunIsLastWrite(s1, events);
    RunIsLastWrite(s2, events);
    LastWriteForgetsStart(s1, s2, events);
  }

  /** Clicking the open menu again keeps it open; clicking another switches straight to it. */
  lemma RepeatedClicks(i: int, j: int, a: Anchor, b: Anchor)
    ensures Run(None, [Click(i, a), Click(i, b)]) == Some(OpenMenu(i, b))
    ensures Run(None, [Click(i, a), Click(j, b)]) == Some(OpenMenu(j, b))
  {
    var s := Some(OpenMenu(i, a));
    assert [Click(i, a), Click(i, b)][1..] == [Click(i, b)] && [Click(i, b)][1..] == [];
    assert Run(s, [Click(i, b)]) == Run(Some(OpenMenu(i, b)), []);
    assert [Click(i, a), Click(j, b)][1..] == [Click(j, b)] && [Click(j, b)][1..] == [];
    assert Run(s, [Click(j, b)]) == Run(Some(OpenMenu(j, b)), []);
  }

  /** The props each top-level entry is rendered with (the shared handlers aside). */
  datatype TopLevelProps<T> = TopLevelProps(menuTopLevel: T, menuTopLevelIndex: nat, openMenu: Option<OpenMenu>)

  /** `config.map((menuTopLevel, index) => …)` from position `from` on. */
  function TopLevels<T>(config: seq<T>, from: nat, openMenu: Option<OpenMenu>): (r: seq<TopLevelProps<T>>)
    requires from <= |config|
    ensures |r| == |config| - from
    ensures forall k :: 0 <= k < |r| ==> r[k] == TopLevelProps(config[from + k], from + k, openMenu)
    decreases |config| - from
  {
    if from == |config| then []
    else [TopLevelProps(config[from], from, openMenu)] + TopLevels(config, from + 1, openMenu)
  }

  /** A render: the config handed to the hotkey hook, and the bar, absent for an empty config. */
  datatype View<T> = View(hotkeyConfig: seq<T>, bar: Option<seq<TopLevelProps<T>>>)

  /**
   * Rendering renders nothing for an empty config, and otherwise one
   * top-level entry per config entry, at its own index, all seeing the same
   * open menu.
   */
  function Render<T>(config: seq<T>, openMenu: Option<OpenMenu>): (v: View<T>)
    ensures v.hotkeyConfig == config
    ensures v.bar.None? <==> |config| == 0
    ensures v.bar.Some? ==> |v.bar.value| == |config|
    ensures v.bar.Some? ==> forall i :: 0 <= i < |config| ==>
              v.bar.value[i].menuTopLevel == config[i] &&
              v.bar.value[i].menuTopLevelIndex == i &&
              v.bar.value[i].openMenu == openMenu
  {
    View(config, if |config| == 0 then None else Some(TopLevels(config, 0, openMenu)))
  }

  /** One mounted top-level menu bar. */
  class MenuBar<T> {
    var config: seq<T>
    var openMenu: Option<OpenMenu>

    /** Mounting: an absent config is `[]`, and no menu is open. */
    constructor (config: Option<seq<T>>)
      ensures this.config == config.GetOr([])
      ensures openMenu == None
    {
      this.config := config.GetOr([]);
      openMenu := None;
    }

    /**
     * A later render with a new `config` prop: the open menu is state and
     * survives, even when its index no longer names an entry of the new config.
     */
    method Rerender(config: Option<seq<T>>)
      modifies this`config
      ensures this.config == config.GetOr([])
      ensures openMenu == old(openMenu)
    {
      this.config := config.GetOr([]);
    }

    /** A click on trigger `menuIndex` opens that menu at the clicked element. */
    method HandleClick(menuIndex: int, anchor: Anchor)
      modifies this`openMenu
      ensures openMenu == Some(OpenMenu(menuIndex, anchor))
      ensures openMenu == Transition(old(openMenu), Click(menuIndex, anchor))
    {
      openMenu := Some(OpenMenu(menuIndex, anchor));
    }

    /** Closing leaves no menu open. */
    method HandleClose()
      modifies this`openMenu
      ensures openMenu == None
      ensures openMenu == Transition(old(openMenu), Close)
    {
      openMenu := None;
    }

    /**
     * A key on trigger `menuIndex`: Enter, Space and ArrowDown prevent the
     * default action and open that menu; any other key is ignored.
     */
    method HandleKeyDown(key: string, menuIndex: int, anchor: Anchor) returns (preventDefault: bool)
      modifies this`openMenu
      ensures preventDefault <==> IsOpeningKey(key)
      ensures preventDefault ==> openMenu == Some(OpenMenu(menuIndex, anchor))
      ensures !preventDefault ==> openMenu == old(openMenu)
      ensures openMenu == Transition(old(openMenu), KeyDown(key, menuIndex, anchor))
    {
      preventDefault := false;
      if key in ["Enter", " ", "ArrowDown"] {
        preventDefault := true;
        openMenu := Some(OpenMenu(menuIndex, anchor));
      }
    }

    /** What the bar renders in its current state. */
    function View(): View<T>
      reads this`config, this`openMenu
    {
      Render(config, openMenu)
    }
  }
}
