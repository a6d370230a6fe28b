/** The linear model the engine hands to the solver for one node, as data: the
    variables with their bounds, the objective coefficients and the constraint rows. */
module LinearModels {
  import opened Wrappers
  import opened Java
  import opened Materials

  datatype Variable = Variable(name: string, lower: ExtReal, upper: ExtReal, isInteger: bool)

  /** A constraint lower <= sum of coefficient * variable <= upper; variables are
      referred to by their position in the model. */
  datatype Row = Row(lower: ExtReal, upper: ExtReal, coefficients: map<nat, real>)

  /** The objective is always minimised. The material balance rows are keyed by the
      material object, because the source collects them in a hash map whose order is
      not defined. */
  datatype LpModel = LpModel(
    variables: seq<Variable>, objective: seq<real>, unitRows: seq<Row>, balanceRows: map<Material, Row>)

  /** A slot of the override array holding Integer.MIN_VALUE is not pinned; any other
      value p pins its variable to p. */
  predicate Pinned(slot: int) {
    slot != IntMin as int
  }

  /** What the model builder reads from one operating unit. */
  datatype UnitSpec = UnitSpec(
    capacity: int32, fixedCost: int32, proportionalCost: int32, input: Material?, output: Material)

  /** The units in list order, and the lower bound of every material a unit produces. */
  datatype Network = Network(units: seq<UnitSpec>, lowerBound: map<Material, int32>)

  predicate Closed(net: Network) {
    forall i :: 0 <= i < |net.units| ==> net.units[i].output in net.lowerBound
  }

  /** Variables are interleaved X1, Y1, X2, Y2, ...: slot 2i is the flow X(i+1) of
      unit i and slot 2i+1 its on/off switch Y(i+1). */
  function VariableName(k: nat): string {
    (if k % 2 == 0 then "X" else "Y") + NatToString(k / 2 + 1)
  }

  /** X is continuous in [0, +inf); Y is an integer in [0, 1]. */
  function FreeVariable(k: nat): Variable {
    if k % 2 == 0 then Variable(VariableName(k), Finite(0.0), PositiveInfinity, false)
    else Variable(VariableName(k), Finite(0.0), Finite(1.0), true)
  }

  function Variables(net: Network): seq<Variable> {
    seq(2 * |net.units|, k requires 0 <= k => FreeVariable(k))
  }

  /** The objective coefficient of slot k: the proportional cost on X, the fixed cost on Y. */
  function Cost(u: UnitSpec, k: nat): real {
    if k % 2 == 0 then u.proportionalCost as real else u.fixedCost as real
  }

  function Objective(net: Network): seq<real> {
    seq(2 * |net.units|, k requires 0 <= k < 2 * |net.units| => Cost(net.units[k / 2], k))
  }

  /** Row r of the three rows of unit i: X >= 0, 0 <= Y <= 1, and the capacity row
      X - capacity * Y <= 0, where the capacity is negated as a Java int. */
  function UnitRow(u: UnitSpec, i: nat, r: nat): Row {
    if r == 0 then Row(Finite(0.0), PositiveInfinity, map[2 * i := 1.0])
    else if r == 1 then Row(Finite(0.0), Finite(1.0), map[2 * i + 1 := 1.0])
    else Row(NegativeInfinity, Finite(0.0), map[2 * i := 1.0, 2 * i + 1 := Negate(u.capacity) as real])
  }

  function UnitRows(net: Network): seq<Row> {
    seq(3 * |net.units|, j requires 0 <= j < 3 * |net.units| => UnitRow(net.units[j / 3], j / 3, j % 3))
  }

  /** The X slots of the first i units that produce m, in unit order. */
  function OriginsUpTo(net: Network, m: Material?, i: nat): seq<nat>
    requires i <= |net.units|
  {
    if i == 0 then []
    else OriginsUpTo(net, m, i - 1) + (if net.units[i - 1].output == m then [2 * (i - 1)] else [])
  }

  /** The X slots of the first i units that consume m, in unit order. */
  function DestinationsUpTo(net: Network, m: Material?, i: nat): seq<nat>
    requires i <= |net.units|
  {
    if i == 0 then []
    else DestinationsUpTo(net, m, i - 1) + (if net.units[i - 1].input == m then [2 * (i - 1)] else [])
  }

  /** The materials, a null input included, that the first i units consume or produce. */
  function Touched(net: Network, i: nat): set<Material?>
    requires i <= |net.units|
  {
    if i == 0 then {} else Touched(net, i - 1) + {net.units[i - 1].input, net.units[i - 1].output}
  }

  /** Sets the coefficient of each slot in ks to v, one after the other. */
  function Assign(c: map<nat, real>, ks: seq<nat>, v: real): map<nat, real>
    decreases |ks|
  {
    if ks == [] then c else Assign(c[ks[0] := v], ks[1..], v)
  }

  /** The balance row of m: +1 for every producer, then -1 for every consumer. */
  function Coefficients(net: Network, m: Material): map<nat, real> {
    var n := |net.units|;
    Assign(Assign(map[], OriginsUpTo(net, m, n), 1.0), DestinationsUpTo(net, m, n), -1.0)
  }

  function Outputs(net: Network): set<Material> {
    set i | 0 <= i < |net.units| :: net.units[i].output
  }

  /** One row per material that some unit produces: at least its lower bound. */
  function BalanceRows(net: Network): map<Material, Row>
    requires Closed(net)
  {
    map m | m in Outputs(net) :: Row(Finite(net.lowerBound[m] as real), PositiveInfinity, Coefficients(net, m))
  }

  function Pin(v: Variable, p: int): Variable {
    v.(lower := Finite(p as real), upper := Finite(p as real))
  }

  /** Every pinned slot fixes its variable's bounds; the whole array is ignored when
      absent (None stands for the source's null array) or when its length is not the
      number of variables. */
  function ApplyOverrides(vars: seq<Variable>, fixedValues: Option<seq<int>>): seq<Variable> {
    if fixedValues.Some? && |fixedValues.value| == |vars| then
      seq(|vars|, k requires 0 <= k < |vars| =>
        if Pinned(fixedValues.value[k]) then Pin(vars[k], fixedValues.value[k]) else vars[k])
    else vars
  }

  function ModelOf(net: Network, fixedValues: Option<seq<int>>): LpModel
    requires Closed(net)
  {
    LpModel(ApplyOverrides(Variables(net), fixedValues), Objective(net), UnitRows(net), BalanceRows(net))
  }

  // ---------------------------------------------------------------------------
  // What the model says

  /** Pinned slots only change the bounds of their own variables: names, integrality,
      objective and rows are those of the model without overrides, and an unpinned
      slot keeps the bounds of a free variable. */
  lemma OverridesOnlyPin(net: Network, fixedValues: seq<int>, k: nat)
    requires Closed(net) && |fixedValues| == 2 * |net.units| && k < |fixedValues|
    ensures var pinned := ModelOf(net, Some(fixedValues)); var free := ModelOf(net, None);
      && |pinned.variables| == |free.variables| == 2 * |net.units|
      && pinned.objective == free.objective && pinned.unitRows == free.unitRows
      && pinned.balanceRows == free.balanceRows
      && pinned.variables[k].name == VariableName(k) == free.variables[k].name
      && pinned.variables[k].isInteger == (k % 2 == 1)
      && (!Pinned(fixedValues[k]) ==> pinned.variables[k] == free.variables[k] == FreeVariable(k))
      && (Pinned(fixedValues[k]) ==>
            pinned.variables[k].lower == pinned.variables[k].upper == Finite(fixedValues[k] as real))
  {
  }

  /** The variables are X1, Y1, X2, Y2, ... whatever the overrides. */
  lemma ModelNames(net: Network, fixedValues: Option<seq<int>>)
    requires Closed(net)
    ensures |ModelOf(net, fixedValues).variables| == 2 * |net.units|
    ensures forall k :: 0 <= k < 2 * |net.units| ==> ModelOf(net, fixedValues).variables[k].name == VariableName(k)
  {
  }

  /** An override array of the wrong length leaves the model as if there were none. */
  lemma OverridesOfWrongLength(net: Network, fixedValues: seq<int>)
    requires Closed(net) && |fixedValues| != 2 * |net.units|
    ensures ModelOf(net, Some(fixedValues)) == ModelOf(net, None)
  {
  }

  /** The three rows of unit i: X >= 0, 0 <= Y <= 1, X - capacity * Y <= 0. */
  lemma UnitRowsOf(net: Network, i: nat)
    requires i < |net.units|
    ensures var rows := UnitRows(net); var u := net.units[i];
      && |rows| == 3 * |net.units|
      && rows[3 * i] == Row(Finite(0.0), PositiveInfinity, map[2 * i := 1.0])
      && rows[3 * i + 1] == Row(Finite(0.0), Finite(1.0), map[2 * i + 1 := 1.0])
      && rows[3 * i + 2].lower == NegativeInfinity && rows[3 * i + 2].upper == Finite(0.0)
      && rows[3 * i + 2].coefficients[2 * i] == 1.0
      && (u.capacity != IntMin ==> rows[3 * i + 2].coefficients[2 * i + 1] == -(u.capacity as real))
  {
    var rows := UnitRows(net);
    assert (3 * i) / 3 == i && (3 * i + 1) / 3 == i && (3 * i + 2) / 3 == i;
    assert (3 * i) % 3 == 0 && (3 * i + 1) % 3 == 1 && (3 * i + 2) % 3 == 2;
  }

  lemma {:induction false} AssignEffect(c: map<nat, real>, ks: seq<nat>, v: real, k: nat)
    ensures k in Assign(c, ks, v) <==> k in c || k in ks
    ensures k in ks ==> Assign(c, ks, v)[k] == v
    ensures k !in ks && k in c ==> Assign(c, ks, v)[k] == c[k]
    decreases |ks|
  {
    if ks != [] {
      AssignEffect(c[ks[0] := v], ks[1..], v, k);
      assert ks == [ks[0]] + ks[1..];
    }
  }

  lemma {:induction false} OriginsMembers(net: Network, m: Material?, i: nat, k: nat)
    requires i <= |net.units|
    ensures k in OriginsUpTo(net, m, i) <==> k % 2 == 0 && k / 2 < i && net.units[k / 2].output == m
    ensures k in DestinationsUpTo(net, m, i) <==> k % 2 == 0 && k / 2 < i && net.units[k / 2].input == m
  {
    if i > 0 {
      OriginsMembers(net, m, i - 1, k);
    }
  }

  /** A material no unit touches has neither origins nor destinations. */
  lemma {:induction false} UntouchedEnds(net: Network, m: Material?, i: nat)
    requires i <= |net.units| && m !in Touched(net, i)
    ensures OriginsUpTo(net, m, i) == [] && DestinationsUpTo(net, m, i) == []
  {
    if i > 0 {
      UntouchedEnds(net, m, i - 1);
    }
  }

  lemma {:induction false} OutputTouched(net: Network, i: nat, j: nat)
    requires j < i <= |net.units|
    ensures net.units[j].output in Touched(net, i)
  {
    if j < i - 1 {
      OutputTouched(net, i - 1, j);
    }
  }

  /** Some unit among the first i produces m exactly when m has an origin. */
  lemma {:induction false} OriginsNonEmpty(net: Network, m: Material?, i: nat)
    requires i <= |net.units|
    ensures OriginsUpTo(net, m, i) != [] <==> exists j :: 0 <= j < i && net.units[j].output == m
  {
    if i > 0 {
      OriginsNonEmpty(net, m, i - 1);
    }
  }

  /** The material balance rows: exactly one row per material that some unit
      produces, bounded below by its lower bound and unbounded above; the X of every
      unit that produces or consumes it takes part, with -1 for a consumer (even one
      that also produces it, as consumers are assigned last) and +1 otherwise.
      Materials that are only consumed get no row. */
  lemma BalanceRowsShape(net: Network, m: Material, k: nat)
    requires Closed(net)
    ensures m in BalanceRows(net) <==> exists i :: 0 <= i < |net.units| && net.units[i].output == m
    ensures m in BalanceRows(net) ==>
      var row := BalanceRows(net)[m]; var i := k / 2;
      && row.lower == Finite(net.lowerBound[m] as real) && row.upper == PositiveInfinity
      && (k in row.coefficients <==>
            k % 2 == 0 && i < |net.units| && (net.units[i].input == m || net.units[i].output == m))
      && (k in row.coefficients ==> row.coefficients[k] == if net.units[i].input == m then -1.0 else 1.0)
  {
    var n := |net.units|;
    OriginsMembers(net, m, n, k);
    var origins := Assign(map[], OriginsUpTo(net, m, n), 1.0);
    AssignEffect(map[], OriginsUpTo(net, m, n), 1.0, k);
    AssignEffect(origins, DestinationsUpTo(net, m, n), -1.0, k);
  }
}
