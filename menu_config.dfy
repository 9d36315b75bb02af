/**
 * The declarative menu configuration: a tree of menu nodes, and the
 * default tree and bar props the component ships with.
 */
module MenuConfig {
  import opened Wrappers
  import opened Handles
  import TableSizeChooser

  /** A React element embedded in a menu: the size picker, or anything else. */
  datatype Element =
    | TableSizeChooserElement(props: TableSizeChooser.Props)
    | OtherElement(id: nat)

  /**
   * One entry of a menu, tagged by its `kind`. (`caption` is the source's
   * `label`, a reserved word in Dafny.)
   */
  datatype MenuNode =
    | Submenu(caption: string, disabled: Option<bool>, items: seq<MenuNode>)
    | Action(caption: string, disabled: Option<bool>, action: Callback,
             icon: Option<Icon>, shortcut: Option<string>)
    | Divider
    | Component(component: Element)

  /** The root configuration record, with every field present. */
  datatype Config = Config(caption: string, disabled: bool, items: seq<MenuNode>)

  datatype ColorTheme = Light | Dark

  /** The bar props other than `config` and `sx`, with every field present. */
  datatype MenuBarProps = MenuBarProps(
    colorTheme: ColorTheme,
    color: string,
    transitionDuration: int,
    disableRipple: bool)

  /** The shortcuts of all actions under `n`, in pre-order. */
  function Shortcuts(n: MenuNode): seq<string>
  {
    match n
    case Submenu(_, _, items) => ShortcutsOf(items)
    case Action(_, _, _, _, shortcut) => if shortcut.Some? then [shortcut.value] else []
    case Divider => []
    case Component(_) => []
  }

  function ShortcutsOf(ns: seq<MenuNode>): seq<string>
  {
    if ns == [] then [] else Shortcuts(ns[0]) + ShortcutsOf(ns[1..])
  }

  /** The labels of all actions under `n` marked `disabled: true`, in pre-order. */
  function DisabledActions(n: MenuNode): seq<string>
  {
    match n
    case Submenu(_, _, items) => DisabledActionsOf(items)
    case Action(caption, disabled, _, _, _) => if disabled == Some(true) then [caption] else []
    case Divider => []
    case Component(_) => []
  }

  function DisabledActionsOf(ns: seq<MenuNode>): seq<string>
  {
    if ns == [] then [] else DisabledActions(ns[0]) + DisabledActionsOf(ns[1..])
  }

  predicate NoDuplicates(s: seq<string>)
  {
    forall i, j :: 0 <= i < j < |s| ==> s[i] != s[j]
  }

  // The default tree. Action callbacks only log; they are numbered handles here.

  const HelloAction: MenuNode :=
    Action("Hello", None, Callback(0), Some(Icon("FileCopy")), Some("Ctrl+S"))
  const OpenAction: MenuNode :=
    Action("Open", Some(true), Callback(1), Some(Icon("FolderOpen")), None)
  const SaveAction: MenuNode :=
    Action("Save", None, Callback(2), Some(Icon("Save")), None)
  const ExitAction: MenuNode :=
    Action("Exit", None, Callback(3), Some(Icon("ExitToApp")), None)

  const FileMenu: MenuNode :=
    Submenu("File", None, [HelloAction, OpenAction, Divider, SaveAction, ExitAction])

  const TableChooserProps: TableSizeChooser.Props :=
    TableSizeChooser.Props(Some(10), Some(10), 3, 3, Callback(4))

  const TableMenu: MenuNode :=
    Submenu("Table", None, [Component(TableSizeChooserElement(TableChooserProps))])

  const DefaultMenuConfig: Config := Config("Root", false, [FileMenu, TableMenu])

  const DefaultMenuBarProps: MenuBarProps := MenuBarProps(Light, "transparent", 0, true)

  /** The default root is an enabled "Root" holding the "File" and "Table" submenus. */
  lemma DefaultRootShape()
    ensures DefaultMenuConfig.caption == "Root" && !DefaultMenuConfig.disabled
    ensures |DefaultMenuConfig.items| == 2
    ensures DefaultMenuConfig.items[0].Submenu? && DefaultMenuConfig.items[0].caption == "File"
    ensures DefaultMenuConfig.items[1].Submenu? && DefaultMenuConfig.items[1].caption == "Table"
  {
  }

  /** "File" lists Hello, Open, a divider, Save and Exit, in that order. */
  lemma DefaultFileItems()
    ensures var items := FileMenu.items;
      |items| == 5 &&
      items[0].Action? && items[0].caption == "Hello" &&
      items[1].Action? && items[1].caption == "Open" &&
      items[2].Divider? &&
      items[3].Action? && items[3].caption == "Save" &&
      items[4].Action? && items[4].caption == "Exit"
  {
  }

  /** Only Hello has a shortcut, so no two default actions share one. */
  lemma DefaultShortcutsUnique()
    ensures ShortcutsOf(DefaultMenuConfig.items) == ["Ctrl+S"]
    ensures NoDuplicates(ShortcutsOf(DefaultMenuConfig.items))
  {
    assert ShortcutsOf(FileMenu.items[4..]) == [];
    assert ShortcutsOf(FileMenu.items[3..]) == [];
    assert ShortcutsOf(FileMenu.items[2..]) == [];
    assert ShortcutsOf(FileMenu.items[1..]) == [];
    assert ShortcutsOf(FileMenu.items) == ["Ctrl+S"];
    assert Shortcuts(FileMenu) == ["Ctrl+S"];
    assert ShortcutsOf(TableMenu.items) == [];
    assert ShortcutsOf(DefaultMenuConfig.items[1..]) == [];
  }

  /** Open is the one disabled action; the other actions leave `disabled` unset. */
  lemma DefaultDisabledActions()
    ensures DisabledActionsOf(DefaultMenuConfig.items) == ["Open"]
    ensures forall i :: 0 <= i < |FileMenu.items| && FileMenu.items[i].Action? && i != 1 ==>
              FileMenu.items[i].disabled.None?
  {
    assert DisabledActionsOf(FileMenu.items[4..]) == [];
    assert DisabledActionsOf(FileMenu.items[3..]) == [];
    assert DisabledActionsOf(FileMenu.items[2..]) == [];
    assert DisabledActionsOf(FileMenu.items[1..]) == ["Open"];
    assert DisabledActionsOf(FileMenu.items) == ["Open"];
    assert DisabledActions(FileMenu) == ["Open"];
    assert DisabledActionsOf(TableMenu.items) == [];
    assert DisabledActionsOf(DefaultMenuConfig.items[1..]) == [];
  }

  /** "Table" holds one size picker, 10 by 10, whose current 3 by 3 size fits. */
  lemma DefaultTableChooser()
    ensures |TableMenu.items| == 1 && TableMenu.items[0].Component?
    ensures TableMenu.items[0].component.TableSizeChooserElement?
    ensures var p := TableMenu.items[0].component.props;
      p.maxRows == Some(10) && p.maxCols == Some(10) &&
      p.currentRows == 3 && p.currentCols == 3 &&
      1 <= p.currentRows <= p.maxRows.value && 1 <= p.currentCols <= p.maxCols.value
  {
  }

  /** The default bar: light theme, transparent, no transition, no ripple. */
  lemma DefaultBarProps()
    ensures DefaultMenuBarProps.colorTheme == Light
    ensures DefaultMenuBarProps.color == "transparent"
    ensures DefaultMenuBarProps.transitionDuration == 0
    ensures DefaultMenuBarProps.disableRipple
  {
  }
}
