/**
 * The outer menu bar: it accepts one config node or an array of them,
 * normalises that to an array, hands it to the hotkey hook, and renders
 * either an empty bar or the main menu renderer.
 */
module MenuBarNormalize {
  import opened Wrappers

  /** The `config` prop: a single node, or an array of nodes. */
  datatype ConfigProp<T> = Single(node: T) | Many(nodes: seq<T>)

  /** `Array.isArray(config) ? config : [config]`, with an absent prop read as `[]`. */
  function Normalize<T>(config: Option<ConfigProp<T>>): seq<T>
  {
    match config.GetOr(Many([]))
    case Many(nodes) => nodes
    case Single(node) => [node]
  }

  /** An array passes through unchanged; a single node becomes a one-element array. */
  lemma NormalizeShape<T>(config: Option<ConfigProp<T>>)
    ensures config.None? ==> Normalize(config) == []
    ensures config.Some? && config.value.Many? ==> Normalize(config) == config.value.nodes
    ensures config.Some? && config.value.Single? ==> Normalize(config) == [config.value.node]
  {
  }

  /** Exactly an absent prop or an empty array normalises to nothing; a single node never does. */
  lemma NormalizeEmpty<T>(config: Option<ConfigProp<T>>)
    ensures |Normalize(config)| == 0 <==> config.None? || config.value == Many([])
    ensures config.Some? && config.value.Single? ==> |Normalize(config)| == 1
  {
  }

  /** Which of the two bars is rendered. */
  datatype Bar<T> =
    | EmptyBar
    | MainBar(menuConfig: seq<T>, disableRipple: Option<bool>)

  /** A render: the array handed to the hotkey hook, and the bar. */
  datatype View<T> = View(hotkeyConfig: seq<T>, bar: Bar<T>)

  /**
   * Rendering: the hotkey hook always receives the normalised array; the
   * empty bar is chosen exactly when it has no entries, and otherwise the
   * main renderer receives that same array.
   */
  function Render<T>(config: Option<ConfigProp<T>>, disableRipple: Option<bool>): (v: View<T>)
    ensures v.hotkeyConfig == Normalize(config)
    ensures v.bar.EmptyBar? <==> |v.hotkeyConfig| == 0
    ensures v.bar.MainBar? ==> v.bar.menuConfig == v.hotkeyConfig && v.bar.disableRipple == disableRipple
  {
    var menuConfig := Normalize(config);
    View(menuConfig, if |menuConfig| == 0 then EmptyBar else MainBar(menuConfig, disableRipple))
  }

  /** A single node always renders the main bar, with a one-entry menu. */
  lemma SingleNodeRendersMainBar<T>(node: T, disableRipple: Option<bool>)
    ensures Render(Some(Single(node)), disableRipple).bar == MainBar([node], disableRipple)
  {
  }

  /** No config prop at all renders the empty bar. */
  lemma AbsentConfigRendersEmptyBar<T>(disableRipple: Option<bool>)
    ensures Render<T>(None, disableRipple) == View([], EmptyBar)
  {
  }
}
