/** The multiplexer: parameter derivation, node layout, initial value,
    recomputation and output propagation, and its saved form. */
module Multiplexer {
  import opened Optional
  import opened TriStates

  function Pow2(k: nat): (p: nat)
    ensures p >= 1
  {
    if k == 0 then 1 else 2 * Pow2(k - 1)
  }

  lemma {:induction false} Pow2Monotonic(a: nat, b: nat)
    requires a < b
    ensures Pow2(a) < Pow2(b)
    decreases b
  {
    if a < b - 1 {
      Pow2Monotonic(a, b - 1);
    }
  }

  /** `Math.ceil(a / b)` on positive integers. */
  function CeilDiv(a: nat, b: nat): (q: nat)
    requires b > 0
    ensures a <= q * b
    ensures q == 0 || (q - 1) * b < a
  {
    var q := (a + b - 1) / b;
    var r := (a + b - 1) % b;
    assert a + b - 1 == q * b + r;
    assert (q - 1) * b == q * b - b;
    q
  }

  /** `Math.ceil(Math.log2(n))` on positive integers: the least `k` with
      `2^k >= n`. */
  function CeilLog2(n: nat): (k: nat)
    requires n >= 1
    ensures n <= Pow2(k)
    ensures k == 0 || Pow2(k - 1) < n
    decreases n
  {
    if n == 1 then 0
    else
      var k' := CeilLog2((n + 1) / 2);
      assert Pow2(k' + 1) == 2 * Pow2(k');
      k' + 1
  }

  /** `k` selector lines are the fewest that can address `n` groups. */
  predicate LeastWidth(n: nat, k: nat) {
    n <= Pow2(k) && (k == 0 || Pow2(k - 1) < n)
  }

  /** The resolved parameters of a multiplexer. */
  datatype MuxParams = MuxParams(numFrom: nat, numTo: nat, numGroups: nat, numSel: nat)

  /** The declared parameter defaults. */
  const DefaultFrom: int := 8
  const DefaultTo: int := 4

  /** `validateParams`: `from` inputs are cut into `numGroups` groups of
      `to`, chosen by `numSel` selector lines. Counts below 1 are refused;
      the source computes infinite or NaN counts for them, or, when both
      are negative, finite counts with a negative group size. */
  function ValidateParams(from: int, to: int): (r: Option<MuxParams>)
    ensures r.Some? <==> from >= 1 && to >= 1
    ensures r.Some? ==> r.value.numFrom == from && r.value.numTo == to
    ensures r.Some? ==> (r.value.numGroups - 1) * to < from <= r.value.numGroups * to
    ensures r.Some? ==> LeastWidth(r.value.numGroups, r.value.numSel)
  {
    if from < 1 || to < 1 then None
    else
      var numGroups := CeilDiv(from, to);
      var numSel := CeilLog2(numGroups);
      Some(MuxParams(from, to, numGroups, numSel))
  }

  /** Parameters produced by `ValidateParams`. */
  predicate Valid(p: MuxParams) {
    ValidateParams(p.numFrom, p.numTo) == Some(p)
  }

  lemma DefaultParams()
    ensures ValidateParams(DefaultFrom, DefaultTo) == Some(MuxParams(8, 4, 2, 1))
  {
    assert CeilDiv(8, 4) == 2;
    assert CeilLog2(2) == 1;
  }

  /** The groups hold all `from` inputs, with fewer than one group of
      padding, and there is at least one group. */
  lemma GroupsCoverInputs(p: MuxParams)
    requires Valid(p)
    ensures p.numFrom <= p.numGroups * p.numTo < p.numFrom + p.numTo
    ensures p.numGroups >= 1
  {
  }

  /** The shape of the nodes created by `makeNodes`: the size of each input
      group `I`, the number of selectors `S` and of outputs `Z`. */
  datatype NodeLayout = NodeLayout(groupSizes: seq<nat>, numSelectors: nat, numOutputs: nat)

  function MakeNodes(p: MuxParams): (l: NodeLayout)
    ensures |l.groupSizes| == p.numGroups
    ensures forall g :: 0 <= g < |l.groupSizes| ==> l.groupSizes[g] == p.numTo
    ensures l.numSelectors == p.numSel && l.numOutputs == p.numTo
  {
    NodeLayout(seq(p.numGroups, _ => p.numTo), p.numSel, p.numTo)
  }

  /** The number of input nodes of a layout, group by group, then the
      selectors. */
  function NumInputs(l: NodeLayout): nat {
    Sum(l.groupSizes) + l.numSelectors
  }

  function Sum(xs: seq<nat>): nat {
    if |xs| == 0 then 0 else xs[0] + Sum(xs[1..])
  }

  lemma {:induction false} SumConstant(xs: seq<nat>, c: nat)
    requires forall i :: 0 <= i < |xs| ==> xs[i] == c
    ensures Sum(xs) == |xs| * c
  {
    if |xs| > 0 {
      SumConstant(xs[1..], c);
    }
  }

  /** A multiplexer has `numGroups * numTo + numSel` inputs and `numTo`
      outputs. */
  lemma NodeCounts(p: MuxParams)
    ensures NumInputs(MakeNodes(p)) == p.numGroups * p.numTo + p.numSel
    ensures MakeNodes(p).numOutputs == p.numTo
  {
    SumConstant(MakeNodes(p).groupSizes, p.numTo);
  }

  /** The current values of a multiplexer's nodes: input groups `I`,
      selectors `S` and outputs `Z`. */
  datatype MuxNodes = MuxNodes(I: seq<seq<TriState>>, S: seq<TriState>, Z: seq<TriState>)

  /** The node values have the layout of `p`. */
  predicate Fits(nodes: MuxNodes, p: MuxParams) {
    && |nodes.I| == p.numGroups
    && (forall g :: 0 <= g < |nodes.I| ==> |nodes.I[g]| == p.numTo)
    && |nodes.S| == p.numSel
    && |nodes.Z| == p.numTo
  }

  /** The value read from the selector lines: unknown, or a group index. */
  datatype Selector = Unknown | Index(n: nat)

  /** The index, if any, names one of the groups. */
  predicate SelectorFits(sel: Selector, p: MuxParams) {
    sel.Index? ==> sel.n < p.numGroups
  }

  /** `initialValue`: `numTo` outputs at false. */
  function InitialValue(p: MuxParams): (z: seq<TriState>)
    ensures |z| == p.numTo
    ensures forall i :: 0 <= i < |z| ==> z[i] == Known(false)
  {
    seq(p.numTo, _ => Known(false))
  }

  /** `doRecalcValue`: with the selector lines decoded by `decode`, an
      unknown selector makes every output unknown, and index `n` copies
      input group `n`. */
  function Recalc(p: MuxParams, nodes: MuxNodes, decode: seq<TriState> -> Selector): (z: seq<TriState>)
    requires Fits(nodes, p)
    requires SelectorFits(decode(nodes.S), p)
    ensures |z| == p.numTo
    ensures decode(nodes.S).Unknown? ==> forall i :: 0 <= i < |z| ==> z[i] == Unset
    ensures decode(nodes.S).Index? ==>
              forall i :: 0 <= i < |z| ==> z[i] == nodes.I[decode(nodes.S).n][i]
  {
    match decode(nodes.S)
    case Unknown => seq(p.numTo, _ => Unset)
    case Index(n) => nodes.I[n]
  }

  /** `propagateValue`: the new values are written to the outputs `Z`, one
      per output; inputs and selectors are untouched. */
  function PropagateValue(p: MuxParams, nodes: MuxNodes, newValues: seq<TriState>): (r: MuxNodes)
    requires Fits(nodes, p)
    requires |newValues| == p.numTo
    ensures Fits(r, p)
    ensures r.I == nodes.I && r.S == nodes.S
    ensures forall i :: 0 <= i < p.numTo ==> r.Z[i] == newValues[i]
  {
    nodes.(Z := newValues)
  }

  /** One recomputation followed by propagation: an unknown selector
      unsets every output, and index `n` puts group `n` on the outputs. */
  function Step(p: MuxParams, nodes: MuxNodes, decode: seq<TriState> -> Selector): (r: MuxNodes)
    requires Fits(nodes, p)
    requires SelectorFits(decode(nodes.S), p)
    ensures Fits(r, p) && r.I == nodes.I && r.S == nodes.S
    ensures decode(nodes.S).Unknown? ==> forall i :: 0 <= i < p.numTo ==> r.Z[i] == Unset
    ensures decode(nodes.S).Index? ==> r.Z == nodes.I[decode(nodes.S).n]
  {
    PropagateValue(p, nodes, Recalc(p, nodes, decode))
  }

  /** With unchanged inputs, a second step changes nothing. */
  lemma StepIdempotent(p: MuxParams, nodes: MuxNodes, decode: seq<TriState> -> Selector)
    requires Fits(nodes, p)
    requires SelectorFits(decode(nodes.S), p)
    ensures Step(p, Step(p, nodes, decode), decode) == Step(p, nodes, decode)
  {
  }

  /** When the number of groups is a power of two, the selector lines are
      exactly as wide as needed, and every index they can encode names a
      group. */
  lemma PowerOfTwoSelectorsFit(p: MuxParams, k: nat, sel: Selector)
    requires LeastWidth(p.numGroups, p.numSel)
    requires Pow2(k) == p.numGroups
    requires sel.Index? ==> sel.n < Pow2(p.numSel)
    ensures p.numSel == k
    ensures SelectorFits(sel, p)
  {
    if p.numSel < k {
      Pow2Monotonic(p.numSel, k);
    } else if p.numSel > k {
      Pow2Monotonic(k, p.numSel - 1);
    }
  }

  /** Otherwise some encodable index names no group: three groups of one
      input use two selector lines, which can encode index 3. */
  lemma SelectorsCanOvershoot()
    ensures ValidateParams(3, 1) == Some(MuxParams(3, 1, 3, 2))
    ensures 3 < Pow2(2) && !SelectorFits(Index(3), MuxParams(3, 1, 3, 2))
  {
    assert CeilDiv(3, 1) == 3;
    assert CeilLog2(3) == 1 + CeilLog2(2);
  }

  /** The multiplexer's own state besides its parameters. */
  datatype Mux = Mux(params: MuxParams, showWiring: bool)

  /** The saved form: `from`, `to` and `showWiring`, each optional. */
  datatype MuxRepr = MuxRepr(from: Option<int>, to: Option<int>, showWiring: Option<bool>)

  const ShowWiringDefault := true

  /** The constructor: `showWiring` comes from the saved data when present,
      and is the default otherwise. */
  function Construct(p: MuxParams, saved: Option<MuxRepr>): (m: Mux)
    ensures m.params == p
    ensures saved.Some? && saved.value.showWiring.Some? ==> m.showWiring == saved.value.showWiring.value
    ensures (saved.None? || saved.value.showWiring.None?) ==> m.showWiring == ShowWiringDefault
  {
    Mux(p, if saved.Some? then saved.value.showWiring.GetOr(ShowWiringDefault) else ShowWiringDefault)
  }

  /** `toJSON`: the construction parameters, and `showWiring` only when it
      differs from the default. */
  function ToJSON(m: Mux): (saved: MuxRepr)
    ensures saved.from == Some(m.params.numFrom as int) && saved.to == Some(m.params.numTo as int)
    ensures saved.showWiring.Some? <==> m.showWiring != ShowWiringDefault
    ensures saved.showWiring.Some? ==> saved.showWiring.value == m.showWiring
    ensures Valid(m.params) ==> Load(saved) == Some(m)
  {
    MuxRepr(Some(m.params.numFrom), Some(m.params.numTo),
            if m.showWiring != ShowWiringDefault then Some(m.showWiring) else None)
  }

  /** Loading saved data: missing parameters take their defaults, then are
      validated, then the multiplexer is constructed. */
  function Load(saved: MuxRepr): (r: Option<Mux>)
    ensures r.Some? <==> saved.from.GetOr(DefaultFrom) >= 1 && saved.to.GetOr(DefaultTo) >= 1
    ensures r.Some? ==> Valid(r.value.params)
    ensures r.Some? ==> r.value.params.numFrom == saved.from.GetOr(DefaultFrom)
                        && r.value.params.numTo == saved.to.GetOr(DefaultTo)
    ensures r.Some? ==> r.value.showWiring == saved.showWiring.GetOr(ShowWiringDefault)
  {
    match ValidateParams(saved.from.GetOr(DefaultFrom), saved.to.GetOr(DefaultTo))
    case None => None
    case Some(p) => Some(Construct(p, Some(saved)))
  }
}
