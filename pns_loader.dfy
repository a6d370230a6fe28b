/** The loader and the writer of the problem-definition text, working on the
    Material and OperatingUnit objects. Each is proved against its counterpart on
    values in ProblemText: the loader builds objects whose fields are the state the
    section loop reaches, and the writer produces exactly the save layout. */
module ProblemFiles {
  import opened Wrappers
  import opened Java
  import opened Materials
  import opened OperatingUnits
  import opened ProblemText

  /** What the loader hands on: the two lists, in the order their lines came. */
  datatype Problem = Problem(materials: seq<Material>, units: seq<OperatingUnit>)

  function MaterialViews(materials: seq<Material>): (r: seq<MaterialData>)
    reads materials
    ensures |r| == |materials| && forall i :: 0 <= i < |materials| ==> r[i] == materials[i].View()
  {
    seq(|materials|, i reads materials requires 0 <= i < |materials| => materials[i].View())
  }

  function UnitViews(units: seq<OperatingUnit>): (r: seq<UnitData>)
    reads units
    ensures |r| == |units| && forall k :: 0 <= k < |units| ==> r[k] == units[k].View()
  {
    seq(|units|, k reads units requires 0 <= k < |units| => units[k].View())
  }

  /** A material reference of a unit is the object at the recorded position, or
      null when no position is recorded. */
  ghost predicate Refers(m: Material?, at: Option<nat>, materials: seq<Material>) {
    if at.None? then m == null else at.value < |materials| && m == materials[at.value]
  }

  /** The objects hold the loop's state: the same fields in the same order, each
      unit's references are the materials at its recorded positions, and no unit
      object appears twice. */
  ghost predicate Mirrors(st: Loaded, materials: seq<Material>, units: seq<OperatingUnit>)
    reads materials, units
  {
    && MaterialViews(materials) == st.materials
    && |units| == |st.units|
    && (forall k :: 0 <= k < |units| ==>
          && units[k].View() == st.units[k].data
          && Refers(units[k].inputMaterial, st.units[k].input, materials)
          && Refers(units[k].outputMaterial, st.units[k].output, materials))
    && (forall k, l :: 0 <= k < l < |units| ==> units[k] != units[l])
  }

  // ---------------------------------------------------------------------------
  // One line

  /** getMaterial: a new material with lower bound 0, raised to the value of the
      second field when there is one. */
  method GetMaterial(name: string, kind: MaterialType, data: seq<string>) returns (r: Result<Material, Failure>)
    ensures r.Ok? ==> fresh(r.value) && MaterialFrom(name, kind, data) == Ok(r.value.View())
    ensures r.Err? ==> MaterialFrom(name, kind, data) == Err(r.error)
  {
    var material := new Material(name, kind);
    if |data| == 2 {
      var lowerBound := Split(data[1], "=");
      if |lowerBound| != 2 {
        return Err(InvalidLowerBound);
      }
      var value := ParseInt(Strip(lowerBound[1]));
      if value.None? {
        return Err(InvalidLowerBound);
      }
      material.SetLowerBound(value.value);
    }
    return Ok(material);
  }

  /** lineToMaterial. */
  method LineToMaterial(line: string) returns (r: Result<Material, Failure>)
    ensures r.Ok? ==> fresh(r.value) && ParseMaterial(line) == Ok(r.value.View())
    ensures r.Err? ==> ParseMaterial(line) == Err(r.error)
  {
    var parts := Split(line, ":");
    if |parts| != 2 {
      return Err(InvalidMaterialLine);
    }
    var data := Split(Strip(parts[1]), ",");
    if |data| < 1 || |data| > 2 {
      return Err(InvalidMaterialData);
    }
    var name := Strip(parts[0]);
    var kind := FromString(Strip(data[0]));
    if kind.Err? {
      return Err(kind.error);
    }
    r := GetMaterial(name, kind.value, data);
  }

  /** getOperatingUnit: the three values in field order, then a new unit without
      materials. */
  method GetOperatingUnit(parts: seq<string>, data: seq<string>) returns (r: Result<OperatingUnit, Failure>)
    requires |parts| >= 1 && |data| >= 3
    ensures r.Ok? ==> fresh(r.value) && UnitFrom(parts, data) == Ok(r.value.View())
    ensures r.Ok? ==> r.value.inputMaterial == null && r.value.outputMaterial == null
    ensures r.Err? ==> UnitFrom(parts, data) == Err(r.error)
  {
    var name := Strip(parts[0]);
    var capacity := FieldValue(data[0]);
    if capacity.Err? {
      return Err(capacity.error);
    }
    var fixedCost := FieldValue(data[1]);
    if fixedCost.Err? {
      return Err(fixedCost.error);
    }
    var proportionalCost := FieldValue(data[2]);
    if proportionalCost.Err? {
      return Err(proportionalCost.error);
    }
    var unit := new OperatingUnit(name, capacity.value, fixedCost.value, proportionalCost.value);
    return Ok(unit);
  }

  /** lineToOperatingUnit. */
  method LineToOperatingUnit(line: string) returns (r: Result<OperatingUnit, Failure>)
    ensures r.Ok? ==> fresh(r.value) && ParseUnit(line) == Ok(r.value.View())
    ensures r.Ok? ==> r.value.inputMaterial == null && r.value.outputMaterial == null
    ensures r.Err? ==> ParseUnit(line) == Err(r.error)
  {
    var parts := Split(line, ":");
    if |parts| != 2 {
      return Err(InvalidUnitLine);
    }
    var data := Split(Strip(parts[1]), ",");
    if |data| != 3 {
      return Err(InvalidUnitData);
    }
    r := GetOperatingUnit(parts, data);
  }

  /** Reading the material list from the front, the last material with the name
      among those seen so far. */
  lemma LastMaterialExtended(materials: seq<MaterialData>, k: nat, name: string)
    requires k < |materials|
    ensures LastMaterial(materials[..k + 1], name)
         == if materials[k].name == name then Some(k) else LastMaterial(materials[..k], name)
  {
    assert materials[..k + 1][..k] == materials[..k];
  }

  /** The unit loop of a flow line: it stops at the first unit with the name. */
  method FindUnit(units: seq<OperatingUnit>, name: string, ghost st: Loaded) returns (unit: OperatingUnit?)
    requires |units| == |st.units| && forall k :: 0 <= k < |units| ==> units[k].name == st.units[k].data.name
    ensures FirstUnit(st.units, name).None? ==> unit == null
    ensures FirstUnit(st.units, name).Some? ==> unit == units[FirstUnit(st.units, name).value]
  {
    unit := null;
    var k := 0;
    while k < |units|
      invariant k <= |units| && unit == null
      invariant forall j :: 0 <= j < k ==> st.units[j].data.name != name
    {
      if units[k].name == name {
        unit := units[k];
        assert FirstUnit(st.units, name) == Some(k);
        return;
      }
      k := k + 1;
    }
  }

  /** The material loop of a flow line: it goes through the whole list, and each
      material with the input or the output name replaces the earlier find. */
  method FindMaterials(materials: seq<Material>, input: string, output: string)
    returns (inputMaterial: Material?, outputMaterial: Material?)
    ensures Refers(inputMaterial, LastMaterial(MaterialViews(materials), input), materials)
    ensures Refers(outputMaterial, LastMaterial(MaterialViews(materials), output), materials)
  {
    ghost var ms := MaterialViews(materials);
    inputMaterial, outputMaterial := null, null;
    var i := 0;
    while i < |materials|
      invariant i <= |materials|
      invariant Refers(inputMaterial, LastMaterial(ms[..i], input), materials)
      invariant Refers(outputMaterial, LastMaterial(ms[..i], output), materials)
    {
      LastMaterialExtended(ms, i, input);
      LastMaterialExtended(ms, i, output);
      if materials[i].name == input {
        inputMaterial := materials[i];
      }
      if materials[i].name == output {
        outputMaterial := materials[i];
      }
      i := i + 1;
    }
    assert ms[..i] == ms;
  }

  /** The flow line's effect on the loop's state: parsed, then connected. */
  function FlowStep(st: Loaded, line: string): Result<Loaded, Failure> {
    match ParseFlow(line)
    case Err(e) => Err(e)
    case Ok(flow) => Connect(st, flow)
  }

  /** A line of the flow section: split at ':' into the unit's name and the flow,
      the flow at "=>" into the input and the output name. */
  method LoadFlowLine(line: string, materials: seq<Material>, units: seq<OperatingUnit>, ghost st: Loaded)
    returns (error: Option<Failure>)
    requires Mirrors(st, materials, units)
    modifies units
    ensures error.None? <==> FlowStep(st, line).Ok?
    ensures error.Some? ==> FlowStep(st, line).error == error.value
    ensures FlowStep(st, line).Ok? ==> Mirrors(FlowStep(st, line).value, materials, units)
  {
    var parts := Split(line, ":");
    if |parts| != 2 {
      return Some(InvalidFlowLine);
    }
    var data := Split(Strip(parts[1]), "=>");
    if |data| != 2 {
      return Some(InvalidFlowData);
    }
    var flow := Flow(Strip(parts[0]), Strip(data[0]), Strip(data[1]));
    assert FlowStep(st, line) == Connect(st, flow);
    error := ConnectFlow(flow, materials, units, st);
  }

  /** The first unit with the name gets, as its input and output, the last
      material with each name. */
  method ConnectFlow(flow: Flow, materials: seq<Material>, units: seq<OperatingUnit>, ghost st: Loaded)
    returns (error: Option<Failure>)
    requires Mirrors(st, materials, units)
    modifies units
    ensures error.None? <==> Connect(st, flow).Ok?
    ensures error.Some? ==> Connect(st, flow).error == error.value
    ensures Connect(st, flow).Ok? ==> Mirrors(Connect(st, flow).value, materials, units)
  {
    ConnectCases(st, flow);
    var unit := FindUnit(units, flow.unit, st);
    if unit == null {
      return Some(UnitNotFound);
    }
    error := ConnectUnit(unit, flow, materials, units, st, FirstUnit(st.units, flow.unit).value);
  }

  /** The material search and the two setters, once the unit at position k is
      found: the last material with each name, or MaterialNotFound. */
  method ConnectUnit(unit: OperatingUnit, flow: Flow, materials: seq<Material>, units: seq<OperatingUnit>,
                     ghost st: Loaded, ghost k: nat)
    returns (error: Option<Failure>)
    requires Mirrors(st, materials, units) && FirstUnit(st.units, flow.unit) == Some(k) && unit == units[k]
    modifies units
    ensures error.None? <==> Connect(st, flow).Ok?
    ensures error.Some? ==> error.value == MaterialNotFound && Connect(st, flow) == Err(MaterialNotFound)
    ensures Connect(st, flow).Ok? ==> Mirrors(Connect(st, flow).value, materials, units)
  {
    ConnectCases(st, flow);
    var inputMaterial, outputMaterial := FindMaterials(materials, flow.input, flow.output);
    if inputMaterial == null || outputMaterial == null {
      return Some(MaterialNotFound);
    }
    Link(unit, inputMaterial, outputMaterial, materials, units, st, k,
         LastMaterial(st.materials, flow.input), LastMaterial(st.materials, flow.output));
    return None;
  }

  /** Connect's three outcomes, in the order the source checks them. */
  lemma ConnectCases(st: Loaded, flow: Flow)
    ensures FirstUnit(st.units, flow.unit).None? ==> Connect(st, flow) == Err(UnitNotFound)
    ensures FirstUnit(st.units, flow.unit).Some?
            && (LastMaterial(st.materials, flow.input).None? || LastMaterial(st.materials, flow.output).None?)
            ==> Connect(st, flow) == Err(MaterialNotFound)
    ensures FirstUnit(st.units, flow.unit).Some?
            && LastMaterial(st.materials, flow.input).Some? && LastMaterial(st.materials, flow.output).Some?
            ==> Connect(st, flow) == Ok(Linked(st, FirstUnit(st.units, flow.unit).value,
                                               LastMaterial(st.materials, flow.input),
                                               LastMaterial(st.materials, flow.output)))
  {
  }

  /** The state after unit k is given the materials at the two positions. */
  function Linked(st: Loaded, k: nat, inAt: Option<nat>, outAt: Option<nat>): Loaded
    requires k < |st.units| && inAt.Some? && inAt.value < |st.materials|
    requires outAt.Some? && outAt.value < |st.materials|
  {
    var data := st.units[k].data.(inputName := st.materials[inAt.value].name,
                                  outputName := st.materials[outAt.value].name);
    st.(units := st.units[k := LoadedUnit(data, inAt, outAt)])
  }

  /** The two setters of a flow line, on the unit found. */
  method Link(unit: OperatingUnit, inputMaterial: Material, outputMaterial: Material,
              materials: seq<Material>, units: seq<OperatingUnit>,
              ghost st: Loaded, ghost k: nat, ghost inAt: Option<nat>, ghost outAt: Option<nat>)
    requires Mirrors(st, materials, units) && k < |units| && unit == units[k]
    requires inAt.Some? && Refers(inputMaterial, inAt, materials)
    requires outAt.Some? && Refers(outputMaterial, outAt, materials)
    modifies unit
    ensures Mirrors(Linked(st, k, inAt, outAt), materials, units)
  {
    unit.SetInputMaterial(inputMaterial);
    unit.SetOutputMaterial(outputMaterial);
    ghost var next := Linked(st, k, inAt, outAt);
    assert MaterialViews(materials) == st.materials;
    forall l | 0 <= l < |units|
      ensures units[l].View() == next.units[l].data
      ensures Refers(units[l].inputMaterial, next.units[l].input, materials)
      ensures Refers(units[l].outputMaterial, next.units[l].output, materials)
    {
      if l != k {
        assert units[l] != units[k];
      }
    }
  }

  // ---------------------------------------------------------------------------
  // The whole text

  /** The body of loadFile's loop, for one line: stripped, a header opens the next
      section; before the first header and on a blank line nothing happens; any
      other line is read as its section says. */
  method LoadLine(raw: string, section: int, materials: seq<Material>, units: seq<OperatingUnit>, ghost st: Loaded)
    returns (error: Option<Failure>, nextSection: int, nextMaterials: seq<Material>, nextUnits: seq<OperatingUnit>)
    requires section == st.section && Mirrors(st, materials, units)
    modifies units
    ensures error.Some? <==> Step(st, raw).Err?
    ensures error.Some? ==> Step(st, raw).error == error.value
    ensures error.None? ==> nextSection == Step(st, raw).value.section
                            && Mirrors(Step(st, raw).value, nextMaterials, nextUnits)
    ensures forall i :: 0 <= i < |nextMaterials| ==> nextMaterials[i] in materials || fresh(nextMaterials[i])
    ensures forall k :: 0 <= k < |nextUnits| ==> nextUnits[k] in units || fresh(nextUnits[k])
  {
    var line := Strip(raw);
    if line in Headers {
      return None, section + 1, materials, units;
    } else if section < 0 || IsBlank(line) {
      return None, section, materials, units;
    }
    nextSection := section;
    error, nextMaterials, nextUnits := LoadSectionLine(line, section, materials, units, st);
  }

  /** A line that is neither a header nor blank, inside a section: a material, an
      operating unit or a flow; in any later section it is ignored. */
  method LoadSectionLine(line: string, section: int, materials: seq<Material>, units: seq<OperatingUnit>, ghost st: Loaded)
    returns (error: Option<Failure>, nextMaterials: seq<Material>, nextUnits: seq<OperatingUnit>)
    requires section == st.section && Mirrors(st, materials, units)
    modifies units
    ensures error.Some? <==> SectionStep(st, line).Err?
    ensures error.Some? ==> SectionStep(st, line).error == error.value
    ensures error.None? ==> SectionStep(st, line).value.section == section
                            && Mirrors(SectionStep(st, line).value, nextMaterials, nextUnits)
    ensures forall i :: 0 <= i < |nextMaterials| ==> nextMaterials[i] in materials || fresh(nextMaterials[i])
    ensures forall k :: 0 <= k < |nextUnits| ==> nextUnits[k] in units || fresh(nextUnits[k])
  {
    error, nextMaterials, nextUnits := None, materials, units;
    if section == 0 {
      error, nextMaterials := LoadMaterialLine(line, materials, units, st);
    } else if section == 1 {
      error, nextUnits := LoadUnitLine(line, materials, units, st);
    } else if section == 2 {
      error := LoadFlowLine(line, materials, units, st);
    }
  }

  /** A line of the material section: the material is appended. */
  method LoadMaterialLine(line: string, materials: seq<Material>, units: seq<OperatingUnit>, ghost st: Loaded)
    returns (error: Option<Failure>, nextMaterials: seq<Material>)
    requires Mirrors(st, materials, units)
    ensures error.Some? <==> ParseMaterial(line).Err?
    ensures error.Some? ==> ParseMaterial(line).error == error.value
    ensures error.None? ==> Mirrors(st.(materials := st.materials + [ParseMaterial(line).value]), nextMaterials, units)
    ensures forall i :: 0 <= i < |nextMaterials| ==> nextMaterials[i] in materials || fresh(nextMaterials[i])
  {
    var material := LineToMaterial(line);
    if material.Err? {
      return Some(material.error), materials;
    }
    MaterialAdded(st, materials, units, material.value);
    return None, materials + [material.value];
  }

  /** A line of the unit section: the unit is appended, with no material yet. */
  method LoadUnitLine(line: string, materials: seq<Material>, units: seq<OperatingUnit>, ghost st: Loaded)
    returns (error: Option<Failure>, nextUnits: seq<OperatingUnit>)
    requires Mirrors(st, materials, units)
    ensures error.Some? <==> ParseUnit(line).Err?
    ensures error.Some? ==> ParseUnit(line).error == error.value
    ensures error.None? ==> Mirrors(st.(units := st.units + [LoadedUnit(ParseUnit(line).value, None, None)]),
                                    materials, nextUnits)
    ensures forall k :: 0 <= k < |nextUnits| ==> nextUnits[k] in units || fresh(nextUnits[k])
  {
    var unit := LineToOperatingUnit(line);
    if unit.Err? {
      return Some(unit.error), units;
    }
    UnitAdded(st, materials, units, unit.value);
    return None, units + [unit.value];
  }

  lemma MaterialAdded(st: Loaded, materials: seq<Material>, units: seq<OperatingUnit>, m: Material)
    requires Mirrors(st, materials, units)
    ensures Mirrors(st.(materials := st.materials + [m.View()]), materials + [m], units)
  {
    assert MaterialViews(materials + [m]) == st.materials + [m.View()];
    var next := st.(materials := st.materials + [m.View()]);
    forall k | 0 <= k < |units|
      ensures Refers(units[k].inputMaterial, next.units[k].input, materials + [m])
      ensures Refers(units[k].outputMaterial, next.units[k].output, materials + [m])
    {
      assert Refers(units[k].inputMaterial, st.units[k].input, materials);
      assert Refers(units[k].outputMaterial, st.units[k].output, materials);
    }
  }

  lemma UnitAdded(st: Loaded, materials: seq<Material>, units: seq<OperatingUnit>, u: OperatingUnit)
    requires Mirrors(st, materials, units) && u !in units
    requires u.inputMaterial == null && u.outputMaterial == null
    ensures Mirrors(st.(units := st.units + [LoadedUnit(u.View(), None, None)]), materials, units + [u])
  {
    var next := st.(units := st.units + [LoadedUnit(u.View(), None, None)]);
    forall k | 0 <= k < |units| + 1
      ensures (units + [u])[k].View() == next.units[k].data
      ensures Refers((units + [u])[k].inputMaterial, next.units[k].input, materials)
      ensures Refers((units + [u])[k].outputMaterial, next.units[k].output, materials)
    {
    }
    forall k, l | 0 <= k < l < |units| + 1
      ensures (units + [u])[k] != (units + [u])[l]
    {
      if l == |units| {
        assert units[k] in units;
      }
    }
  }

  /** loadFile: the loop over the lines with the section counter, which starts
      before the first section; the first failure ends the load and nothing is
      handed on. */
  method LoadFile(lines: seq<string>) returns (r: Result<Problem, Failure>)
    ensures r.Err? <==> Load(lines).Err?
    ensures r.Err? ==> Load(lines).error == r.error
    ensures r.Ok? ==> Mirrors(Load(lines).value, r.value.materials, r.value.units)
    ensures r.Ok? ==> (forall i :: 0 <= i < |r.value.materials| ==> fresh(r.value.materials[i]))
                      && (forall k :: 0 <= k < |r.value.units| ==> fresh(r.value.units[k]))
  {
    var materials: seq<Material> := [];
    var units: seq<OperatingUnit> := [];
    var section := -1;
    ghost var st := Start;
    var i := 0;
    while i < |lines|
      invariant i <= |lines|
      invariant LoadFrom(st, lines[i..]) == Load(lines)
      invariant section == st.section && Mirrors(st, materials, units)
      invariant forall i :: 0 <= i < |materials| ==> fresh(materials[i])
      invariant forall k :: 0 <= k < |units| ==> fresh(units[k])
    {
      assert lines[i..][0] == lines[i] && lines[i..][1..] == lines[i + 1..];
      var error;
      error, section, materials, units := LoadLine(lines[i], section, materials, units, st);
      if error.Some? {
        return Err(error.value);
      }
      st := Step(st, lines[i]).value;
      i := i + 1;
    }
    return Ok(Problem(materials, units));
  }

  /** One more line at the end of a joined text. */
  lemma JoinLinesSnoc(lines: seq<string>, line: string)
    ensures JoinLines(lines) + (line + "\n") == JoinLines(lines + [line])
  {
    JoinLinesAppend(lines, [line]);
    assert [line][1..] == [];
  }

  lemma MaterialLinesSnoc(materials: seq<MaterialData>, i: nat)
    requires i < |materials|
    ensures MaterialLines(materials[..i + 1]) == MaterialLines(materials[..i]) + [MaterialText(materials[i])]
  {
  }

  lemma UnitPartsSnoc(units: seq<UnitData>, k: nat, j: nat)
    requires k < |units| && j < 2
    ensures UnitParts(units[..k + 1], j) == UnitParts(units[..k], j) + [UnitPart(units[k], j)]
  {
  }

  /** saveFile: the materials header and each material's toString; two empty lines,
      the units header and the part of each unit's toString before ';', the part
      after it kept for later; two empty lines, the flows header and the kept parts.
      Each line ends in a line feed. */
  method SaveFile(units: seq<OperatingUnit>, materials: seq<Material>) returns (text: string)
    ensures text == SaveText(MaterialViews(materials), UnitViews(units))
  {
    text := "materials:\n";
    var materialLines := WriteMaterials(materials);
    text := text + materialLines;
    text := text + "\n\noperating_units:\n";
    var unitLines, flowRates := WriteUnits(units);
    text := text + unitLines;
    text := text + "\n\nmaterial_to_operating_unit_flow_rates:\n";
    var flowLines := WriteLines(flowRates);
    text := text + flowLines;
  }

  /** The first loop of saveFile: each material's toString on a line of its own. */
  method WriteMaterials(materials: seq<Material>) returns (text: string)
    ensures text == JoinLines(MaterialLines(MaterialViews(materials)))
  {
    ghost var ms := MaterialViews(materials);
    text := "";
    var i := 0;
    while i < |materials|
      invariant i <= |materials|
      invariant text == JoinLines(MaterialLines(ms[..i]))
    {
      MaterialLinesSnoc(ms, i);
      JoinLinesSnoc(MaterialLines(ms[..i]), MaterialText(ms[i]));
      text := text + (MaterialText(materials[i].View()) + "\n");
      i := i + 1;
    }
    assert ms[..i] == ms;
  }

  /** The second loop of saveFile: each unit's toString split at ';', the first
      piece written on a line of its own and the second kept, in order. */
  method WriteUnits(units: seq<OperatingUnit>) returns (text: string, flowRates: seq<string>)
    ensures text == JoinLines(UnitParts(UnitViews(units), 0))
    ensures flowRates == UnitParts(UnitViews(units), 1)
  {
    ghost var us := UnitViews(units);
    text, flowRates := "", [];
    var k := 0;
    while k < |units|
      invariant k <= |units|
      invariant text == JoinLines(UnitParts(us[..k], 0))
      invariant flowRates == UnitParts(us[..k], 1)
    {
      UnitTextPieces(units[k].View());
      var info := Split(UnitText(units[k].View()), ";");
      UnitPartsSnoc(us, k, 0);
      UnitPartsSnoc(us, k, 1);
      JoinLinesSnoc(UnitParts(us[..k], 0), info[0]);
      text := text + (info[0] + "\n");
      flowRates := flowRates + [info[1]];
      k := k + 1;
    }
    assert us[..k] == us;
  }

  /** The third loop of saveFile: the kept pieces, each on a line of its own. */
  method WriteLines(lines: seq<string>) returns (text: string)
    ensures text == JoinLines(lines)
  {
    text := "";
    var j := 0;
    while j < |lines|
      invariant j <= |lines|
      invariant text == JoinLines(lines[..j])
    {
      assert lines[..j + 1] == lines[..j] + [lines[j]];
      JoinLinesSnoc(lines[..j], lines[j]);
      text := text + (lines[j] + "\n");
      j := j + 1;
    }
    assert lines[..j] == lines;
  }
}
