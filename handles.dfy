/**
 * Opaque handles for values the menu bar only threads through and never
 * inspects: DOM anchor elements, callbacks and icon components.
 */
module Handles {

  /** The `HTMLElement` that triggered a menu (an event's `currentTarget`). */
  datatype Anchor = Anchor(id: nat)

  /** A closure such as an action's `() => void` or a size-select callback. */
  datatype Callback = Callback(id: nat)

  /** An icon component, named as it is imported. */
  datatype Icon = Icon(name: string)
}
