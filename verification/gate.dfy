/** Logic gates: the ten two-input gate types, the inverter, the variant
    toggle of the IMPLY family, the factory and the saved form of a gate. */
module Gates {
  import opened Optional
  import opened TriStates
  import opened Modes

  /** The two-input gate types, in the order of the source's table. */
  datatype Gate2Type = AND | OR | XOR | NAND | NOR | XNOR | IMPLY | RIMPLY | NIMPLY | RNIMPLY

  /** Every gate type: the inverter or one of the two-input types. */
  datatype GateType = NOT | Two(t: Gate2Type)

  /** The boolean function of a two-input gate type, one line per entry of
      the source's table. It agrees with the truth-table column of `t`. */
  function Apply(t: Gate2Type, in1: bool, in2: bool): (r: bool)
    ensures |Column(t)| == 4
    ensures r == Column(t)[Row(in1, in2)]
  {
    match t
    case AND => in1 && in2
    case OR => in1 || in2
    case XOR => in1 != in2
    case NAND => !(in1 && in2)
    case NOR => !(in1 || in2)
    case XNOR => in1 == in2
    case IMPLY => !in1 || in2
    case RIMPLY => in1 || !in2
    case NIMPLY => in1 && !in2
    case RNIMPLY => !in1 && in2
  }

  /** Position of an input pair in a truth-table column ordered
      (false,false), (false,true), (true,false), (true,true). */
  function Row(in1: bool, in2: bool): nat {
    (if in1 then 2 else 0) + (if in2 then 1 else 0)
  }

  /** The truth-table column of each type, written out independently of
      `Apply`, as the output for the four rows in `Row` order. */
  function Column(t: Gate2Type): seq<bool> {
    match t
    case AND => [false, false, false, true]
    case OR => [false, true, true, true]
    case XOR => [false, true, true, false]
    case NAND => [true, true, true, false]
    case NOR => [true, false, false, false]
    case XNOR => [true, false, false, true]
    case IMPLY => [true, true, false, true]
    case RIMPLY => [true, false, true, true]
    case NIMPLY => [false, false, true, false]
    case RNIMPLY => [false, true, false, false]
  }

  /** Recomputation of a two-input gate: an `Unset` input makes the output
      `Unset`; otherwise the output is the table entry. */
  function Recalc2(t: Gate2Type, in1: TriState, in2: TriState): (r: TriState)
    ensures r.Unset? <==> in1.Unset? || in2.Unset?
    ensures in1.Known? && in2.Known? ==> r == Known(Apply(t, in1.level, in2.level))
  {
    if in1.Unset? || in2.Unset? then Unset
    else Known(Apply(t, in1.level, in2.level))
  }

  /** Recomputation of the inverter (NOT gate). */
  function Invert(in0: TriState): (r: TriState)
    ensures r.Unset? <==> in0.Unset?
    ensures in0.Known? ==> r == Known(!in0.level)
  {
    if in0.Unset? then Unset else Known(!in0.level)
  }

  lemma InvertInvolution(x: TriState)
    ensures Invert(Invert(x)) == x
  {
  }

  /** The negated types are the inverters of their positive partners, also
      on tri-state inputs. */
  lemma NegatedTypes(a: TriState, b: TriState)
    ensures Recalc2(NAND, a, b) == Invert(Recalc2(AND, a, b))
    ensures Recalc2(NOR, a, b) == Invert(Recalc2(OR, a, b))
    ensures Recalc2(XNOR, a, b) == Invert(Recalc2(XOR, a, b))
    ensures Recalc2(NIMPLY, a, b) == Invert(Recalc2(IMPLY, a, b))
    ensures Recalc2(RNIMPLY, a, b) == Invert(Recalc2(RIMPLY, a, b))
  {
  }

  /** The types whose output does not depend on the order of the inputs. */
  predicate Symmetric(t: Gate2Type) {
    t in {AND, OR, XOR, NAND, NOR, XNOR}
  }

  /** IMPLY, RIMPLY, NIMPLY and RNIMPLY. */
  predicate ImplyFamily(t: Gate2Type) {
    t in {IMPLY, RIMPLY, NIMPLY, RNIMPLY}
  }

  /** The symmetric types commute, and each IMPLY-family type is its reversed
      partner with the inputs exchanged. */
  lemma ArgumentSwap(t: Gate2Type, a: bool, b: bool)
    ensures Symmetric(t) ==> Apply(t, a, b) == Apply(t, b, a)
    ensures Apply(IMPLY, a, b) == Apply(RIMPLY, b, a)
    ensures Apply(NIMPLY, a, b) == Apply(RNIMPLY, b, a)
  {
  }

  /** The variant switch performed by a double click in design mode: it
      fixes exactly the symmetric types, keeps the IMPLY family closed, and
      the switched type computes the original function with its inputs
      exchanged. */
  function ToggleVariant(t: Gate2Type): (r: Gate2Type)
    ensures r == t <==> Symmetric(t)
    ensures ImplyFamily(r) <==> ImplyFamily(t)
    ensures forall a: bool, b: bool :: Apply(r, a, b) == Apply(t, b, a)
  {
    match t
    case IMPLY => RIMPLY
    case RIMPLY => IMPLY
    case NIMPLY => RNIMPLY
    case RNIMPLY => NIMPLY
    case _ => t
  }

  /** Toggling twice restores the type. */
  lemma ToggleVariantInvolution(t: Gate2Type)
    ensures ToggleVariant(ToggleVariant(t)) == t
  {
  }

  /** A toggled gate computes the original function with its inputs
      exchanged, for every type and every tri-state input. */
  lemma ToggleSwapsInputs(t: Gate2Type, a: TriState, b: TriState)
    ensures Recalc2(ToggleVariant(t), a, b) == Recalc2(t, b, a)
  {
  }

  /** The state of a two-input gate that outlives a recomputation. */
  datatype Gate2 = Gate2(type2: Gate2Type, showAsUnknown: bool)

  /** A gate component: a two-input gate or the inverter. */
  datatype Gate = Binary(g: Gate2) | Inverter {

    function Type(): GateType {
      match this
      case Binary(g) => Two(g.type2)
      case Inverter => NOT
    }

    function NumInputs(): nat {
      if Binary? then 2 else 1
    }

    function NumOutputs(): nat {
      1
    }
  }

  /** A double click on a two-input gate: with the option key in full mode
      it flips the "show as unknown" display style; otherwise, from design
      mode on, it switches the IMPLY variant; below design mode nothing
      changes. */
  function DoubleClick(g: Gate2, mode: int, levels: ModeLevels, optionDown: bool): (r: Gate2)
    ensures mode >= levels.full && optionDown ==> r == g.(showAsUnknown := !g.showAsUnknown)
    ensures !(mode >= levels.full && optionDown) && mode >= levels.design ==>
              r == g.(type2 := ToggleVariant(g.type2))
    ensures mode < levels.design && !(mode >= levels.full && optionDown) ==> r == g
    ensures r.type2 == g.type2 || r.type2 == ToggleVariant(g.type2)
    ensures r.type2 != g.type2 ==> r.showAsUnknown == g.showAsUnknown
  {
    if mode >= levels.full && optionDown then
      g.(showAsUnknown := !g.showAsUnknown)
    else if mode >= levels.design then
      g.(type2 := ToggleVariant(g.type2))
    else
      g
  }

  /** Two double clicks under the same mode and modifier keys restore the
      gate. */
  lemma DoubleClickTwice(g: Gate2, mode: int, levels: ModeLevels, optionDown: bool)
    ensures DoubleClick(DoubleClick(g, mode, levels, optionDown), mode, levels, optionDown) == g
  {
    ToggleVariantInvolution(g.type2);
  }

  /** Recomputation of a gate component from its input node values. */
  function Recalc(gate: Gate, ins: seq<TriState>): (r: TriState)
    requires |ins| == gate.NumInputs()
    ensures r.Unset? <==> exists i :: 0 <= i < |ins| && ins[i].Unset?
    ensures gate.Inverter? && ins[0].Known? ==> r == Known(!ins[0].level)
    ensures gate.Binary? && ins[0].Known? && ins[1].Known? ==>
              r == Known(Apply(gate.g.type2, ins[0].level, ins[1].level))
  {
    match gate
    case Binary(g) => Recalc2(g.type2, ins[0], ins[1])
    case Inverter => Invert(ins[0])
  }

  /** The saved form of a gate: its type, whether the node part of a full
      component record (the `in` field) is present, and the optional
      `showAsUnknown` flag. */
  datatype GateRepr = GateRepr(gateType: GateType, hasNodes: bool, showAsUnknown: Option<bool>)

  /** The gate factory with the constructors it dispatches to. */
  function Make(saved: GateRepr): (gate: Gate)
    ensures gate.Inverter? <==> saved.gateType == NOT
    ensures gate.Type() == saved.gateType
    ensures gate.NumInputs() == (if saved.gateType == NOT then 1 else 2) && gate.NumOutputs() == 1
    ensures gate.Binary? ==>
              gate.g.showAsUnknown == (saved.hasNodes && saved.showAsUnknown == Some(true))
  {
    match saved.gateType
    case NOT => Inverter
    case Two(t) =>
      Binary(Gate2(t, if saved.hasNodes && saved.showAsUnknown.Some? then saved.showAsUnknown.value else false))
  }

  /** The saved form written by `toJSON`: the type, the node part, and
      `showAsUnknown` only when it is set. */
  function ToJSON(gate: Gate): (saved: GateRepr)
    ensures saved.gateType == gate.Type()
    ensures saved.hasNodes
    ensures saved.showAsUnknown == (if gate.Binary? && gate.g.showAsUnknown then Some(true) else None)
    ensures Make(saved) == gate
  {
    match gate
    case Binary(g) => GateRepr(Two(g.type2), true, if g.showAsUnknown then Some(true) else None)
    case Inverter => GateRepr(NOT, true, None)
  }

  /** The name of each gate type as it appears in saved data. */
  function Name(t: GateType): string {
    match t
    case NOT => "NOT"
    case Two(AND) => "AND"
    case Two(OR) => "OR"
    case Two(XOR) => "XOR"
    case Two(NAND) => "NAND"
    case Two(NOR) => "NOR"
    case Two(XNOR) => "XNOR"
    case Two(IMPLY) => "IMPLY"
    case Two(RIMPLY) => "RIMPLY"
    case Two(NIMPLY) => "NIMPLY"
    case Two(RNIMPLY) => "RNIMPLY"
  }

  /** The gate type named by a string, if any. */
  function Parse(s: string): (r: Option<GateType>)
    ensures r.Some? ==> Name(r.value) == s
  {
    if s == "NOT" then Some(NOT)
    else if s == "AND" then Some(Two(AND))
    else if s == "OR" then Some(Two(OR))
    else if s == "XOR" then Some(Two(XOR))
    else if s == "NAND" then Some(Two(NAND))
    else if s == "NOR" then Some(Two(NOR))
    else if s == "XNOR" then Some(Two(XNOR))
    else if s == "IMPLY" then Some(Two(IMPLY))
    else if s == "RIMPLY" then Some(Two(RIMPLY))
    else if s == "NIMPLY" then Some(Two(NIMPLY))
    else if s == "RNIMPLY" then Some(Two(RNIMPLY))
    else None
  }

  lemma ParseName(t: GateType)
    ensures Parse(Name(t)) == Some(t)
  {
  }

  /** `GateTypes.isValue`: the string names the inverter or a two-input type. */
  function IsValue(s: string): (r: bool)
    ensures r <==> s in {"NOT", "AND", "OR", "XOR", "NAND", "NOR", "XNOR", "IMPLY", "RIMPLY", "NIMPLY", "RNIMPLY"}
    ensures r <==> exists t :: Name(t) == s
  {
    var p := Parse(s);
    if p.Some? then
      assert Name(p.value) == s;
      true
    else
      assert forall t :: Name(t) != s by {
        forall t ensures Name(t) != s {
          ParseName(t);
        }
      }
      false
  }
}
