# react-mui-menubar: interaction core in Dafny

A model of the interaction logic of a configurable menu bar component and
of the grid size picker it ships as an embedded widget:

- the top-level bar's single piece of state, the open menu (nothing, or a
  menu index with its anchor element), and the click, close and key-down
  handlers that overwrite it, plus what the bar renders from it
  (`menu_bar_state.dfy`);
- the outer bar's normalisation of its `config` prop (one node or an
  array) and its choice between an empty bar and the main renderer
  (`menu_bar_normalize.dfy`);
- the menu configuration tree (`submenu | action | divider | component`),
  the default tree and the default bar props (`menu_config.dfy`);
- the size picker's state (hovered cell, the two input strings), its
  handlers, the clamped size it commits and the look of each grid cell
  (`table_size_chooser.dfy`), over a model of JavaScript's
  `parseInt(s, 10)` and integer `toString()` (`js_number.dfy`).

`NaN` is `None`. DOM elements, callbacks and icons are opaque handles
(`handles.dfy`). A callback the source invokes with a value (the picker's
`onSizeSelect`) is modelled by the method returning that value. The
source's field `label` is called `caption` in `MenuNode`, because `label`
is a reserved word in Dafny.

Three facts about the modelled code worth knowing when reading the model:

- Clicking the trigger of the open menu keeps it open: `handleClick`
  always overwrites the state (src/components/MenuBar/MenuBar.tsx:30-32);
  nothing in these files closes a menu on a repeated click
  (`MenuBarState.RepeatedClicks`).
- With an empty config the outer bar still renders an empty app bar
  (`MenuBarNormalize.Render` gives `EmptyBar`); only the inner bar renders
  nothing (`MenuBarState.Render`).
- The per-node `disabled` flag is an optional field; nothing in the
  modelled files defaults it or acts on it.

The configuration tree is the datatype `MenuConfig.MenuNode`
(node kinds of src/components/MenuBar/defaults.ts:12-45), and the shipped
defaults are the constants `MenuConfig.DefaultMenuConfig`
(src/components/MenuBar/defaults.ts:12-45) and
`MenuConfig.DefaultMenuBarProps` (src/components/MenuBar/defaults.ts:48-53);
being values they carry no contract, and the `Default*` lemmas below state
their shape. The default tree's component node is rendered from
src/components/TableSizeChooser, which is not part of this model; its
props are given the shape of the size picker modelled here
(`TableSizeChooser.Props`), which takes the same fields.

## Model

| member | source | states |
|---|---|---|
| `MenuBarState.MenuBar.constructor` | src/components/MenuBar/MenuBar.tsx:23-27 | an absent config is `[]`; initially no menu is open |
| `MenuBarState.MenuBar.Rerender` | src/components/MenuBar/MenuBar.tsx:23-27 | a new render reads the new `config` prop (absent is `[]`) while the open menu is kept, even when its index no longer names a config entry |
| `MenuBarState.MenuBar.HandleClick` | src/components/MenuBar/MenuBar.tsx:30-32 | after a click on trigger `i` exactly menu `i` is open at the clicked anchor, whatever was open before |
| `MenuBarState.MenuBar.HandleClose` | src/components/MenuBar/MenuBar.tsx:35-37 | after closing no menu is open |
| `MenuBarState.MenuBar.HandleKeyDown` | src/components/MenuBar/MenuBar.tsx:40-45 | `preventDefault` is called exactly for Enter, Space and ArrowDown; those keys open menu `i` at the trigger, any other key leaves the state as it was |
| `MenuBarState.Transition` | src/components/MenuBar/MenuBar.tsx:30-45 | the three handlers as one step function on the open menu; no contract of its own, its properties are `ClickAlwaysOpens`, `CloseIdempotent`, `KeyDownOpensOnlyOnOpeningKeys` and the `Run*` lemmas, and each handler method ensures it agrees with it |
| `MenuBarState.PreventsDefault` | src/components/MenuBar/MenuBar.tsx:41-42 | an event's default is prevented iff it is a key-down of Enter, Space or ArrowDown |
| `MenuBarState.ClickAlwaysOpens` | src/components/MenuBar/MenuBar.tsx:30-32 | a click yields `Open(i, anchor)` from every state, so clicking the open menu keeps it open |
| `MenuBarState.CloseIdempotent` | src/components/MenuBar/MenuBar.tsx:35-37 | close yields "nothing open" and closing twice equals closing once |
| `MenuBarState.KeyDownOpensOnlyOnOpeningKeys` | src/components/MenuBar/MenuBar.tsx:40-45 | a key opens menu `i` iff it is one of the three opening keys; other keys change nothing; default prevented iff opening key |
| `MenuBarState.AtMostOneOpen` | src/components/MenuBar/MenuBar.tsx:27 | two menus open in the same state are the same menu |
| `MenuBarState.RunIsLastWrite` | src/components/MenuBar/MenuBar.tsx:27-45 | after any sequence of events the state is what the last click, close or opening key set, or the start state if there was none |
| `MenuBarState.RunForgetsStart` | src/components/MenuBar/MenuBar.tsx:30-45 | once a click, close or opening key has been handled the earlier state is irrelevant: handlers overwrite, never toggle |
| `MenuBarState.RepeatedClicks` | src/components/MenuBar/MenuBar.tsx:30-32 | clicking menu `i` twice leaves `i` open; clicking `i` then `j` opens `j` directly |
| `MenuBarState.TopLevels` | src/components/MenuBar/MenuBar.tsx:75-86 | one top-level entry per config entry, each at its own position and with the same open menu |
| `MenuBarState.Render` | src/components/MenuBar/MenuBar.tsx:23-86 | the hotkey hook receives the config; nothing is rendered iff the config is empty; otherwise entry `i` renders config entry `i` at index `i` with the shared open menu |
| `MenuBarNormalize.Normalize` | src/components/MenuBar.tsx:16-21 | the prop as an array; no contract of its own, its properties are `NormalizeShape` and `NormalizeEmpty` |
| `MenuBarNormalize.NormalizeShape` | src/components/MenuBar.tsx:16-21 | an absent prop is `[]`, an array passes through unchanged in order and length, a single node becomes a one-element array |
| `MenuBarNormalize.NormalizeEmpty` | src/components/MenuBar.tsx:21 | the normalised array is empty iff the prop is absent or an empty array; a single node gives length 1 |
| `MenuBarNormalize.Render` | src/components/MenuBar.tsx:15-47 | the hotkey hook receives the normalised array; the empty bar is rendered iff it has length 0; otherwise the main renderer receives that same array and `disableRipple` |
| `MenuBarNormalize.SingleNodeRendersMainBar` | src/components/MenuBar.tsx:21-44 | a single node never takes the empty branch: it renders the main bar with a one-entry config |
| `MenuBarNormalize.AbsentConfigRendersEmptyBar` | src/components/MenuBar.tsx:16-32 | without a config prop the empty bar is rendered and the hotkey hook receives `[]` |
| `MenuConfig.DefaultRootShape` | src/components/MenuBar/defaults.ts:12-45 | the default root is "Root", not disabled, with exactly the submenus "File" then "Table" |
| `MenuConfig.DefaultFileItems` | src/components/MenuBar/defaults.ts:19-25 | "File" holds action Hello, action Open, a divider, action Save, action Exit, in that order |
| `MenuConfig.DefaultShortcutsUnique` | src/components/MenuBar/defaults.ts:20-24 | the only shortcut in the default tree is Hello's "Ctrl+S", so no two actions share a shortcut |
| `MenuConfig.DefaultDisabledActions` | src/components/MenuBar/defaults.ts:20-24 | Open is the only action with `disabled: true`; the other File actions have no `disabled` field |
| `MenuConfig.DefaultTableChooser` | src/components/MenuBar/defaults.ts:29-41 | "Table" holds exactly one component, a size picker of 10 by 10 whose current 3 by 3 size lies within bounds |
| `MenuConfig.DefaultBarProps` | src/components/MenuBar/defaults.ts:48-53 | default bar props are theme light, color "transparent", transition 0, ripple disabled |
| `JsNumber.ParseInt` | stories/TableSizeChooser.tsx:66 | `parseInt(s, 10)` with `NaN` as `None`; no contract of its own, its properties are `ParseIntToString`, `ParseIntNumeral`, `ParseIntPrefix` and `ParseIntNaN` (the same call is made at stories/TableSizeChooser.tsx:85-86 and 127-128) |
| `JsNumber.IntToString` | stories/TableSizeChooser.tsx:44-45 | integer `toString()` (also at stories/TableSizeChooser.tsx:49-50 and 56-57); no contract of its own, its properties are `NatToStringValue` and `ParseIntToString` |
| `JsNumber.TrimStartDropsWhitespace` | stories/TableSizeChooser.tsx:66 | `parseInt`'s leading-whitespace skip removes a prefix of whitespace characters and keeps the rest unchanged |
| `JsNumber.TrimStartSkips` | stories/TableSizeChooser.tsx:66 | any run of whitespace before a non-whitespace character (or the end) is skipped entirely |
| `JsNumber.DigitPrefixStops` | stories/TableSizeChooser.tsx:66 | the digit run read by `parseInt` is exactly the digits before the first non-digit |
| `JsNumber.ParseIntToString` | stories/TableSizeChooser.tsx:44-45 | `parseInt` of the decimal rendering of any integer is that integer, never `NaN` |
| `JsNumber.NatToStringValue` | stories/TableSizeChooser.tsx:56-57 | the rendering of a natural number is a non-empty run of digits whose value is that number |
| `JsNumber.ParseIntNumeral` | stories/TableSizeChooser.tsx:66 | every non-empty run of digits parses to its decimal value |
| `JsNumber.ParseIntPrefix` | stories/TableSizeChooser.tsx:66 | for any leading whitespace, optional `+` or `-`, non-empty digits and a tail not starting with a digit, the result is the signed value of the digits: whitespace and the sign are read, the tail ignored |
| `JsNumber.ParseIntNaN` | stories/TableSizeChooser.tsx:66-67 | whitespace and an optional sign followed by the end or a non-digit (without a sign, also not whitespace or a sign) parse as `NaN`: the empty string, a lone sign, text starting with a letter |
| `TableSizeChooser.Commit` | stories/TableSizeChooser.tsx:85-86 | the committed size is `NaN` iff the input parses as `NaN`; otherwise it is at least 1, at most `max` when `max >= 1`, the parsed value when that lies in `[1, max]`, `max` above it when `max >= 1`, 1 below 1, and 1 whenever `max < 1` |
| `TableSizeChooser.CellAt` | stories/TableSizeChooser.tsx:145-151 | a cell is highlighted iff it lies in the hovered block or in the current size; its border is dark iff it lies in the current size |
| `TableSizeChooser.Grid` | stories/TableSizeChooser.tsx:131-158 | the grid has `maxRows` rows of `maxCols` cells and cell `(r, c)` looks as `CellAt` says |
| `TableSizeChooser.HighlightDownwardClosed` | stories/TableSizeChooser.tsx:146-151 | every cell above or left of a highlighted cell is highlighted |
| `TableSizeChooser.HoverBlockIsClickSize` | stories/TableSizeChooser.tsx:146-151 | outside the current size, the highlighted cells are exactly a block of `hoveredRow + 1` by `hoveredCol + 1` |
| `TableSizeChooser.HoverThenCommit` | stories/TableSizeChooser.tsx:85-86 | a size shown by hovering a cell inside the grid commits unchanged |
| `TableSizeChooser.Chooser.MaxRows` | stories/TableSizeChooser.tsx:41 | `maxRows` with its default of 20; no contract of its own, the constructor and handlers state what depends on it |
| `TableSizeChooser.Chooser.MaxCols` | stories/TableSizeChooser.tsx:41 | `maxCols` with its default of 20; no contract of its own, the constructor and handlers state what depends on it |
| `TableSizeChooser.Chooser.Valid` | stories/TableSizeChooser.tsx:43-51 | the invariant that both input strings parse to a number; established by the constructor and kept by every handler |
| `TableSizeChooser.Chooser.constructor` | stories/TableSizeChooser.tsx:41-51 | `maxRows`/`maxCols` default to 20, hover starts at `(0, 0)`, the inputs show the current size, and both inputs parse |
| `TableSizeChooser.Chooser.SyncInputs` | stories/TableSizeChooser.tsx:48-51 | the inputs show the current size and both parse |
| `TableSizeChooser.Chooser.Rerender` | stories/TableSizeChooser.tsx:48-51 | new props are taken; the inputs are reset to the current size exactly when `currentRows` or `currentCols` changed; both inputs still parse |
| `TableSizeChooser.Chooser.HandleMouseEnter` | stories/TableSizeChooser.tsx:53-58 | hover becomes `(r, c)` and the inputs show `r + 1` and `c + 1`, which parse back to those values |
| `TableSizeChooser.Chooser.HandleClick` | stories/TableSizeChooser.tsx:60-62 | a click reports `(hoveredRow + 1, hoveredCol + 1)`, and every cell of that block is highlighted |
| `TableSizeChooser.Chooser.HandleInputChange` | stories/TableSizeChooser.tsx:64-78 | a value that parses as `NaN` changes nothing; otherwise it is stored verbatim in its own input, its hover becomes `min(n - 1, max - 1)` and the other dimension is untouched; both inputs still parse |
| `TableSizeChooser.Chooser.HandleMouseLeave` | stories/TableSizeChooser.tsx:126-129 | the hover falls back to one less than each input's parsed value, which exists because the inputs always parse |
| `TableSizeChooser.Chooser.HandleInputBlur` | stories/TableSizeChooser.tsx:80-89 | the committed size is never `NaN` and lies in `[1, maxRows]` by `[1, maxCols]` when the maxima are at least 1 |

## Left out

- Theming and layout (`ThemeProvider`, `createTheme`, `CssBaseline`, `AppBar`/`Toolbar` styling, `sx`, `color`, `colorTheme`, text colours, cell colours and sizes): presentation only.
- The React `key` strings of the top-level entries and grid cells: they only identify elements to React.
- `useMenuHotkeys`, `RenderMenuTopLevel`, `CascadingMenu`, `MainMenuRenderer` and the popup-state hooks are not part of this model; hotkey extraction and duplicate detection, hover switching, nested submenus, arrow-key navigation, Escape and leaf activation live there, so only the values handed to them are modelled.
- The 200 ms timer of the input blur and its cancellation on focus: timer scheduling; `HandleInputBlur` gives the size the timer would commit.
- The blur timer's callback sees the input strings and maxima of the render whose `handleInputBlur` received the blur (its dependencies, stories/TableSizeChooser.tsx:89), so hovering a cell within the 200 ms changes what the inputs show but not what is committed; `HandleInputBlur` therefore reads the inputs at blur time and returns the size the timer will commit.
- React's batching of state updates: each handler's updates are applied together when the method returns.
- `parseInt` beyond integers in the safe range: `Infinity`, rounding of very long digit runs and the sign of `-0` (read as 0) are not modelled; `toString` is modelled for integer props only.
- `Grid`: a negative `maxRows` or `maxCols` makes `Array(n)` throw a `RangeError` while rendering; the grid is modelled for non-negative sizes only.
- The `SizeInput` fields (labels, `min`/`max` attributes, the browser's number-field sanitising of typed text): rendering; a change event is modelled by the string it delivers.
- Action callbacks, icons and the React element payload of a component node: opaque handles; their behaviour (logging) is never inspected.
- `dist/index.js`: a re-export with no logic.
