/** The signal values carried by nodes and wires. */
module TriStates {

  /** A node value: a known boolean level, or `Unset` when it cannot be
      determined (the multiplexer calls the same value `Unknown`). */
  datatype TriState = Known(level: bool) | Unset
}
