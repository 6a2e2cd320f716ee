# Logic circuit simulator: gates, multiplexer, logic output and helpers

A Dafny model of the pure logic in the browser-based logic-circuit simulator.
Signals are tri-state: a known boolean level, or `Unset`, which the
multiplexer calls `Unknown`. The model covers four parts:

- **Gates** (`gate.dfy`, module `Gates`). The ten two-input gate types
  AND, OR, XOR, NAND, NOR, XNOR, IMPLY, RIMPLY, NIMPLY and RNIMPLY, with their
  truth table. An `Unset` input makes the output of a two-input gate `Unset`.
  The NOT inverter follows the same rule. A double click switches between
  IMPLY and RIMPLY, and between NIMPLY and RNIMPLY. The model also covers the
  factory that builds an inverter or a two-input gate from saved data, the
  saved form of a gate, and the check that a string names a gate type.
- **Multiplexer** (`mux.dfy`, module `Multiplexer`). From `from` and `to` it
  derives `numGroups = ceil(from/to)` and `numSel = ceil(log2(numGroups))`.
  It lays out `numGroups` input groups of `to` nodes, `numSel` selectors and
  `to` outputs. An unknown selector makes all outputs unknown; a known one
  copies the selected group to the outputs. The saved form is modelled too.
- **Logic output** (`logic_output.dfy`, module `LogicOutputs`). It has one
  input and no outputs. It shows its input's value, and its name survives
  saving and loading.
- **Simulator helpers** (`simulator.dfy`, module `Simulator`; JavaScript
  string built-ins in `strings.dfy`, module `Strings`). These are `any`,
  `isTruthyString`, the query-string lookup of `getURLParameter`, the
  URL-safe rewriting of base64 data and its inverse, and the choice of
  visible menus from the editor mode.

Shared types: `TriStates.TriState` (`tristate.dfy`), `Optional.Option`
(`optional.dfy`; `None` is JavaScript's `undefined`), and
`Modes.ModeLevels` (`modes.dfy`). The mode enumeration is not part of this
model, so its levels are passed in as integers.

## Model

| member | source | states |
|---|---|---|
| Gates.Apply | simulator/src/components/Gate.ts:8-19 | each gate function agrees with its four-row truth table, written out separately |
| Gates.Recalc2 | simulator/src/components/Gate.ts:258-266 | the output of a two-input gate is Unset exactly when an input is Unset; with both inputs known it is the table entry for the configured type |
| Gates.Invert | simulator/src/components/Gate.ts:315-321 | the inverter maps Unset to Unset and negates a known input |
| Gates.InvertInvolution | simulator/src/components/Gate.ts:315-321 | two inverters in series give back the original signal, Unset included |
| Gates.NegatedTypes | simulator/src/components/Gate.ts:9-18 | NAND, NOR, XNOR, NIMPLY and RNIMPLY are inverted AND, OR, XOR, IMPLY and RIMPLY, on all nine tri-state input pairs |
| Gates.ArgumentSwap | simulator/src/components/Gate.ts:9-18 | AND, OR, XOR, NAND, NOR and XNOR are commutative; IMPLY(a,b) = RIMPLY(b,a) and NIMPLY(a,b) = RNIMPLY(b,a) |
| Gates.ToggleVariant | simulator/src/components/Gate.ts:274-282 | the switch leaves exactly the six symmetric types unchanged, maps the IMPLY family onto itself, and the switched type computes the original function with its inputs exchanged |
| Gates.ToggleVariantInvolution | simulator/src/components/Gate.ts:274-282 | switching the variant twice gives back the type |
| Gates.ToggleSwapsInputs | simulator/src/components/Gate.ts:274-282 | a switched gate computes the original gate with its two inputs exchanged, for every type and all tri-state inputs |
| Gates.DoubleClick | simulator/src/components/Gate.ts:268-285 | an option click in full mode flips only the display style; otherwise, from design mode on, only the type is switched to its variant; below design mode nothing changes |
| Gates.DoubleClickTwice | simulator/src/components/Gate.ts:268-285 | two double clicks under the same mode and modifier keys restore the gate |
| Gates.Recalc | simulator/src/components/Gate.ts:258-321 | a gate's output is Unset exactly when one of its inputs is Unset; otherwise the inverter negates and a two-input gate applies its table |
| Gates.Make | simulator/src/components/Gate.ts:327-334 | the factory builds the inverter (1 input, 1 output) exactly when the type is NOT, otherwise a two-input gate (2 inputs, 1 output) of that type; showAsUnknown is set only when the full saved form says true |
| Gates.ToJSON | simulator/src/components/Gate.ts:238-244 | the saved form holds the gate's type and the node part, and holds showAsUnknown (as true) exactly when a two-input gate has it set; rebuilding a gate from it through the factory gives the same gate, display style included |
| Gates.ParseName | simulator/src/components/Gate.ts:21-33 | the name of every gate type is read back as that type |
| Gates.IsValue | simulator/src/components/Gate.ts:31-33 | a string is accepted exactly when it is "NOT" or one of the ten two-input names, that is, the name of some gate type |
| Multiplexer.CeilDiv | simulator/src/components/Mux.ts:29 | the number of groups is the least q with from <= q*to |
| Multiplexer.CeilLog2 | simulator/src/components/Mux.ts:30 | the number of selectors is the least k with numGroups <= 2^k |
| Multiplexer.ValidateParams | simulator/src/components/Mux.ts:28-32 | positive from and to give numFrom = from, numTo = to, numGroups = ceil(from/to) and numSel = the least k with 2^k >= numGroups; non-positive counts are refused |
| Multiplexer.DefaultParams | simulator/src/components/Mux.ts:24-31 | the defaults from = 8 and to = 4 give 2 groups and 1 selector |
| Multiplexer.GroupsCoverInputs | simulator/src/components/Mux.ts:28-31 | there is at least one group, and the groups hold all from inputs with less than one group of padding |
| Multiplexer.MakeNodes | simulator/src/components/Mux.ts:41-58 | the layout has numGroups input groups of numTo nodes, numSel selectors and numTo outputs |
| Multiplexer.NodeCounts | simulator/src/components/Mux.ts:45-56 | a multiplexer has numGroups * numTo + numSel input nodes and numTo output nodes |
| Multiplexer.InitialValue | simulator/src/components/Mux.ts:59 | the initial value is numTo outputs, all false |
| Multiplexer.Recalc | simulator/src/components/Mux.ts:101-109 | an unknown selector makes all numTo outputs Unknown; a selector with index n gives exactly the values of input group n, in order |
| Multiplexer.PropagateValue | simulator/src/components/Mux.ts:111-113 | the new values are written to the outputs one by one; inputs and selectors are unchanged and the layout is kept |
| Multiplexer.Step | simulator/src/components/Mux.ts:101-113 | recomputing and propagating keeps the layout and changes only the outputs: an unknown selector unsets every output, and index n puts input group n on the outputs |
| Multiplexer.StepIdempotent | simulator/src/components/Mux.ts:101-113 | with unchanged inputs, a second recomputation changes nothing |
| Multiplexer.PowerOfTwoSelectorsFit | simulator/src/components/Mux.ts:103-108 | when numGroups is 2^k, numSel is k and every index the selectors can encode names a group |
| Multiplexer.SelectorsCanOvershoot | simulator/src/components/Mux.ts:103-108 | with three groups there are two selectors, which can encode index 3, and no group has that index |
| Multiplexer.Construct | simulator/src/components/Mux.ts:74-85 | the multiplexer keeps its parameters; showWiring is the saved value when there is one, and true otherwise |
| Multiplexer.ToJSON | simulator/src/components/Mux.ts:87-93 | the saved form holds the from and to used at construction and holds showWiring, with the multiplexer's value, exactly when it is not the default; loading it back gives the same multiplexer when the parameters are valid |
| Multiplexer.Load | simulator/src/components/Mux.ts:24-31 | loading succeeds exactly when the defaulted from and to are positive; the parameters are then valid, from and to are the saved ones or 8 and 4, and showWiring is the saved one or true |
| LogicOutputs.Construct | simulator/src/components/LogicOutput.ts:21-26 | without saved data the name stays undefined; with saved data the name is the saved one |
| LogicOutputs.ToJSON | simulator/src/components/LogicOutput.ts:28-33 | constructing from the saved form gives back the same logic output, so its name survives save-then-load |
| LogicOutputs.LoadSaveRoundTrip | simulator/src/components/LogicOutput.ts:21-33 | loading saved data and saving it again gives the same saved data |
| LogicOutputs.Recalc | simulator/src/components/LogicOutput.ts:59-61 | the value shown is the value of the one input node, Unset included |
| Simulator.Any | simulator/src/simulator.ts:374-381 | the result is true exactly when some element is true, so any([]) is false |
| Simulator.IsTruthyString | simulator/src/simulator.ts:71-73 | null, undefined and "" are not truthy; a string is truthy exactly when it is "1" or one of the 16 letter-case spellings of "true" |
| Simulator.LowerIsTrue | simulator/src/simulator.ts:72 | a string lower-cases to "true" exactly when it is a letter-case spelling of "true" |
| Simulator.QueryOf | simulator/src/simulator.ts:60 | the query is the search string without its first character, and empty when the search string is empty |
| Simulator.GetURLParameter | simulator/src/simulator.ts:59-69 | the result is the value of the first &-separated pair whose key is the name (undefined if that pair has no '='), or the default when no key matches |
| Simulator.Lookup | simulator/src/simulator.ts:62-68 | scanning the pairs, the result is the value of the first pair whose key is the name (undefined if that pair has no '='), or the default when no key matches |
| Simulator.QueryRoundTrip | simulator/src/simulator.ts:61-66 | in a query built from key=value entries without '&' or '=', the lookup sees each entry's key and value at its position |
| Simulator.EncodeUrlSafe | simulator/src/simulator.ts:152 | after the URL-safe rewriting there is no '+', '/' or '='; only '-', '_', '%', '3', 'D' can be new; a single character is rewritten as `EncodedChar` says |
| Simulator.DecodeChars | simulator/src/simulator.ts:170 | the '-' and '_' passes keep the length and decode each character on its own: '-' becomes '+', '_' becomes '/', every other character is kept |
| Simulator.DecodeUrlSafe | simulator/src/simulator.ts:170 | after the inverse rewriting there is no '-' or '_'; only '+', '/' and '=' can be new; the empty string stays empty; a single '-' gives "+", a single '_' gives "/", any other single character is kept; "%3D" gives "=" |
| Simulator.DecodeStep | simulator/src/simulator.ts:170 | decoding works from the left: a leading "%3D" becomes '=' and any other leading character is decoded on its own, with decoding going on after it; so every '-', '_' and non-overlapping "%3D" of any input is rewritten |
| Simulator.UrlSafeRoundTrip | simulator/src/simulator.ts:170 | undoing the rewriting of any string over the base64 alphabet gives back that string |
| Simulator.DashDoesNotRoundTrip | simulator/src/simulator.ts:170 | the alphabet condition is needed: a '-' comes back as '+' |
| Simulator.MenusFor | simulator/src/simulator.ts:110-113 | reset is shown exactly from the tryout level on and the right edit controls exactly from the connect level on; the right menu whenever either of them is; the left menu from the full level on |
| Simulator.MenusMonotonic | simulator/src/simulator.ts:110-113 | raising the mode never hides a menu |
| Strings.Split | simulator/src/simulator.ts:61 | split gives at least one piece, no piece holds the separator, and joining the pieces with it gives back the string |
| Strings.SplitJoin | simulator/src/simulator.ts:61-63 | splitting the join of separator-free pieces gives back the pieces |
| Strings.ReplaceChar | simulator/src/simulator.ts:152 | the empty string stays empty; a one-character string becomes the replacement text if it is the character and stays as it is otherwise; after replacing by text that does not hold it the character is gone; no other new character appears |
| Strings.ReplaceCharConcat | simulator/src/simulator.ts:152 | replacing a character works piece by piece on a concatenation |
| Strings.ReplaceAll | simulator/src/simulator.ts:170 | replacing a pattern adds no character outside the string and the replacement; a string starting with the pattern starts with the replacement |
| Strings.ReplaceAllNoMatch | simulator/src/simulator.ts:170 | a string in which the pattern occurs nowhere is left as it is |
| Strings.ReplaceAllAbsent | simulator/src/simulator.ts:170 | a string without the pattern's first character is left as it is |
| Strings.ReplaceAllFirst | simulator/src/simulator.ts:170 | the leftmost occurrence is replaced, the text before it is kept, and replacement goes on after it, so every non-overlapping occurrence, scanning left to right, is rewritten |
| Strings.ToLower | simulator/src/simulator.ts:72 | lower-casing keeps the length and maps each character on its own |

## Left out

- Drawing, geometry, tooltips, context menus and mouse or touch handling are not modelled. This covers `drawGate`, `doDraw`, `isOver`, `size` and the node offsets. The whole of `menutools.ts` (toolbar dispatch over HTML elements) is left out too.
- Browser and runtime calls are not modelled: `window.location`, `history`, `btoa`/`atob`, `decodeURIComponent`, the file manager and io-ts validation. The `search` string is an argument of `GetURLParameter`. The base64 text is an argument of the rewriting functions.
- The propagation scheduler, wires, dirty tracking, the clock, the SR latch and the flip-flops are not part of this model. Neither is `Component.ts`, which holds `inputValues`, `outputValues`, `toJSONBase` and the parameter defaulting.
- Multiplexer.Recalc: the selector decoding (`displayValuesFromArray`) is not part of this model. It is a function parameter yielding `Unknown` or an index. The source does not check the index against the number of groups, so the model requires it to name a group. `SelectorsCanOvershoot` shows that this can fail when the number of groups is not a power of two.
- Multiplexer.ValidateParams: `Math.ceil` and `Math.log2` on floating-point numbers are modelled as exact integer ceil-division and ceil-log2. Non-integer counts are not modelled. The source has no guard for `from` or `to` below 1. There it computes infinite or NaN counts, or, when both are negative (say `from = -8`, `to = -4`), finite counts with a negative group size. The model returns `None` for all of them.
- Multiplexer.Load: missing `from`/`to` take the declared defaults 8 and 4. The defaulting itself lives in `Component.ts`.
- Gates.Make: whether the saved data carries the node part (`"in" in savedData`) is a boolean. The model assumes that `toJSON` writes it, since `toJSONBase` is not part of this model.
- Gates.IsValue: the two-input half (`Gate2Types.isValue`) lives in `utils.ts`. It is modelled as membership in the ten table names.
- Strings.ToLower: `toLowerCase` is modelled for ASCII letters only; other characters are kept. This also bounds Simulator.IsTruthyString.
- The delete-while-iterating loops of `mouseClicked` and the mode parsing in `setup` are UI code.

Two behaviours a reader might expect are not in the code, and the model follows the code:
- Invalid multiplexer parameters (such as `to > from`) are not rejected; `validateParams` checks nothing.
- An index beyond the last group can be encoded: with three groups the two selectors can encode index 3 (`SelectorsCanOvershoot`).

