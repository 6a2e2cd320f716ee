/** The logic output: a display terminal with one input, no outputs and an
    optional name. */
module LogicOutputs {
  import opened Optional
  import opened TriStates

  const NumInputs: nat := 1
  const NumOutputs: nat := 0

  datatype LogicOutput = LogicOutput(name: Option<string>)

  /** The saved form: the optional name. */
  datatype LogicOutputRepr = LogicOutputRepr(name: Option<string>)

  /** The constructor: without saved data the name stays undefined; with
      saved data it is the saved name. */
  function Construct(saved: Option<LogicOutputRepr>): (o: LogicOutput)
    ensures saved.None? ==> o.name.None?
    ensures saved.Some? ==> o.name == saved.value.name
  {
    match saved
    case None => LogicOutput(None)
    case Some(repr) => LogicOutput(repr.name)
  }

  /** `toJSON`: the saved form from which the constructor rebuilds the
      same logic output. */
  function ToJSON(o: LogicOutput): (saved: LogicOutputRepr)
    ensures Construct(Some(saved)) == o
  {
    LogicOutputRepr(o.name)
  }

  /** Loading then saving gives back the same saved data. */
  lemma LoadSaveRoundTrip(saved: LogicOutputRepr)
    ensures ToJSON(Construct(Some(saved))) == saved
  {
  }

  /** `doRecalcValue`: the displayed value is the value of the single input
      node, `Unset` included. */
  function Recalc(ins: seq<TriState>): (v: TriState)
    requires |ins| == NumInputs
    ensures v.Unset? <==> ins[0].Unset?
    ensures ins[0].Known? ==> v == Known(ins[0].level)
  {
    ins[0]
  }
}
