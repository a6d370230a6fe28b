/** The problem-definition text: the lines the loader reads, section by section, and
    the text the save layout writes. Everything here works on values; the loader
    and the writer that build and read the objects are in ProblemFiles. */
module ProblemText {
  import opened Wrappers
  import opened Java
  import opened Materials
  import opened OperatingUnits

  const MaterialsHeader := "materials:"
  const UnitsHeader := "operating_units:"
  const FlowsHeader := "material_to_operating_unit_flow_rates:"

  /** Any of these lines opens the next section, whichever one it is. */
  const Headers: seq<string> := [MaterialsHeader, UnitsHeader, FlowsHeader]

  // ---------------------------------------------------------------------------
  // Material lines

  /** getMaterial: without a second field the lower bound stays 0; a second field
      must split at '=' into exactly two pieces, the second an int. The text before
      '=' is never read. */
  function MaterialFrom(name: string, kind: MaterialType, data: seq<string>): Result<MaterialData, Failure> {
    if |data| == 2 then
      var lowerBound := Split(data[1], "=");
      if |lowerBound| != 2 then Err(InvalidLowerBound)
      else
        match ParseInt(Strip(lowerBound[1]))
        case None => Err(InvalidLowerBound)
        case Some(v) => Ok(MaterialData(name, kind, v))
    else Ok(MaterialData(name, kind, 0))
  }

  /** lineToMaterial: "name: type[, key=N]". */
  function ParseMaterial(line: string): Result<MaterialData, Failure> {
    var parts := Split(line, ":");
    if |parts| != 2 then Err(InvalidMaterialLine)
    else
      var data := Split(Strip(parts[1]), ",");
      if |data| < 1 || |data| > 2 then Err(InvalidMaterialData)
      else
        match FromString(Strip(data[0]))
        case Err(e) => Err(e)
        case Ok(kind) => MaterialFrom(Strip(parts[0]), kind, data)
  }

  // ---------------------------------------------------------------------------
  // Operating unit lines

  /** The int after the first '=' of one field; the key before it is never read. A
      field with nothing after '=' fails on the index, before any parsing. */
  function FieldValue(field: string): Result<int32, Failure> {
    var pieces := Split(field, "=");
    if |pieces| < 2 then Err(IndexOutOfBounds)
    else
      match ParseInt(Strip(pieces[1]))
      case None => Err(InvalidUnitData)
      case Some(v) => Ok(v)
  }

  /** getOperatingUnit: capacity, fixed cost and proportional cost are the values of
      fields 0, 1 and 2, read in that order; no material is set yet. */
  function UnitFrom(parts: seq<string>, data: seq<string>): Result<UnitData, Failure>
    requires |parts| >= 1 && |data| >= 3
  {
    match FieldValue(data[0])
    case Err(e) => Err(e)
    case Ok(capacity) =>
      match FieldValue(data[1])
      case Err(e) => Err(e)
      case Ok(fixedCost) =>
        match FieldValue(data[2])
        case Err(e) => Err(e)
        case Ok(proportionalCost) => Ok(UnitData(Strip(parts[0]), capacity, fixedCost, proportionalCost, "", ""))
  }

  /** lineToOperatingUnit: "name: k=N, k=N, k=N". */
  function ParseUnit(line: string): Result<UnitData, Failure> {
    var parts := Split(line, ":");
    if |parts| != 2 then Err(InvalidUnitLine)
    else
      var data := Split(Strip(parts[1]), ",");
      if |data| != 3 then Err(InvalidUnitData) else UnitFrom(parts, data)
  }

  // ---------------------------------------------------------------------------
  // Flow lines

  /** A flow line names a unit, the material it consumes and the one it produces. */
  datatype Flow = Flow(unit: string, input: string, output: string)

  /** "unit: input => output". */
  function ParseFlow(line: string): Result<Flow, Failure> {
    var parts := Split(line, ":");
    if |parts| != 2 then Err(InvalidFlowLine)
    else
      var data := Split(Strip(parts[1]), "=>");
      if |data| != 2 then Err(InvalidFlowData)
      else Ok(Flow(Strip(parts[0]), Strip(data[0]), Strip(data[1])))
  }

  // ---------------------------------------------------------------------------
  // The section loop

  /** A unit as loaded: its fields, and the positions in the material list of the
      material objects it consumes and produces (None until a flow line sets them). */
  datatype LoadedUnit = LoadedUnit(data: UnitData, input: Option<nat>, output: Option<nat>)

  /** The loop's state: the section counter (-1 before the first header) and the
      two lists in the order the lines came. */
  datatype Loaded = Loaded(section: int, materials: seq<MaterialData>, units: seq<LoadedUnit>)

  /** The position of the first unit with the name. */
  function FirstUnit(units: seq<LoadedUnit>, name: string): (r: Option<nat>)
    ensures r.Some? ==> r.value < |units| && units[r.value].data.name == name
    ensures r.Some? ==> forall j :: 0 <= j < r.value ==> units[j].data.name != name
    ensures r.None? ==> forall j :: 0 <= j < |units| ==> units[j].data.name != name
  {
    if units == [] then None
    else if units[0].data.name == name then Some(0)
    else match FirstUnit(units[1..], name)
      case None => None
      case Some(i) => Some(i + 1)
  }

  /** The position of the last material with the name: the search goes through the
      whole list and keeps overwriting its find. */
  function LastMaterial(materials: seq<MaterialData>, name: string): (r: Option<nat>)
    ensures r.Some? ==> r.value < |materials| && materials[r.value].name == name
    ensures r.Some? ==> forall j :: r.value < j < |materials| ==> materials[j].name != name
    ensures r.None? ==> forall j :: 0 <= j < |materials| ==> materials[j].name != name
  {
    if materials == [] then None
    else
      var k := |materials| - 1;
      if materials[k].name == name then Some(k) else LastMaterial(materials[..k], name)
  }

  /** A flow line: the first unit with the name gets the last material with each
      name as its input and output, replacing any earlier ones. */
  function Connect(st: Loaded, flow: Flow): Result<Loaded, Failure> {
    match FirstUnit(st.units, flow.unit)
    case None => Err(UnitNotFound)
    case Some(i) =>
      var input := LastMaterial(st.materials, flow.input);
      var output := LastMaterial(st.materials, flow.output);
      if input.None? || output.None? then Err(MaterialNotFound)
      else
        var data := st.units[i].data.(inputName := st.materials[input.value].name,
                                      outputName := st.materials[output.value].name);
        Ok(st.(units := st.units[i := LoadedUnit(data, input, output)]))
  }

  /** One line of the loop: stripped, a header opens the next section; before the
      first header, and on blank lines, nothing happens; any other line is read as
      its section says. */
  function Step(st: Loaded, raw: string): Result<Loaded, Failure> {
    var line := Strip(raw);
    if line in Headers then Ok(st.(section := st.section + 1))
    else if st.section < 0 || IsBlank(line) then Ok(st)
    else SectionStep(st, line)
  }

  /** Section 0 holds materials, 1 operating units, 2 flows; lines of later sections
      are ignored. */
  function SectionStep(st: Loaded, line: string): Result<Loaded, Failure> {
    if st.section == 0 then
      match ParseMaterial(line)
      case Err(e) => Err(e)
      case Ok(m) => Ok(st.(materials := st.materials + [m]))
    else if st.section == 1 then
      match ParseUnit(line)
      case Err(e) => Err(e)
      case Ok(u) => Ok(st.(units := st.units + [LoadedUnit(u, None, None)]))
    else if st.section == 2 then
      match ParseFlow(line)
      case Err(e) => Err(e)
      case Ok(flow) => Connect(st, flow)
    else Ok(st)
  }

  /** The loop over the remaining lines; the first failure ends it. */
  function LoadFrom(st: Loaded, lines: seq<string>): Result<Loaded, Failure>
    decreases |lines|
  {
    if lines == [] then Ok(st)
    else
      match Step(st, lines[0])
      case Err(e) => Err(e)
      case Ok(next) => LoadFrom(next, lines[1..])
  }

  const Start := Loaded(-1, [], [])

  /** The lines of a problem definition, loaded from the start. */
  function Load(lines: seq<string>): Result<Loaded, Failure> {
    LoadFrom(Start, lines)
  }

  // ---------------------------------------------------------------------------
  // The save layout

  /** toString of a unit split at ';': the unit part is piece 0, the flow part piece 1. */
  function UnitPart(u: UnitData, j: nat): string
    requires j < 2
  {
    UnitTextPieces(u);
    Split(UnitText(u), ";")[j]
  }

  function MaterialLines(materials: seq<MaterialData>): seq<string> {
    seq(|materials|, i requires 0 <= i < |materials| => MaterialText(materials[i]))
  }

  function UnitParts(units: seq<UnitData>, j: nat): seq<string>
    requires j < 2
  {
    seq(|units|, i requires 0 <= i < |units| => UnitPart(units[i], j))
  }

  lemma MaterialLinesFirst(materials: seq<MaterialData>)
    requires materials != []
    ensures MaterialLines(materials) == [MaterialText(materials[0])] + MaterialLines(materials[1..])
  {
    var a := MaterialLines(materials);
    var b := [MaterialText(materials[0])] + MaterialLines(materials[1..]);
    forall i | 0 <= i < |a|
      ensures a[i] == b[i]
    {
      if i > 0 {
        assert materials[1..][i - 1] == materials[i];
      }
    }
  }

  lemma UnitPartsFirst(units: seq<UnitData>, j: nat)
    requires units != [] && j < 2
    ensures UnitParts(units, j) == [UnitPart(units[0], j)] + UnitParts(units[1..], j)
  {
    var a := UnitParts(units, j);
    var b := [UnitPart(units[0], j)] + UnitParts(units[1..], j);
    forall i | 0 <= i < |a|
      ensures a[i] == b[i]
    {
      if i > 0 {
        assert units[1..][i - 1] == units[i];
      }
    }
  }

  /** saveFile: the materials section, two empty lines, the unit parts, two empty
      lines, then the flow parts; every line ends in a line feed. */
  function SaveText(materials: seq<MaterialData>, units: seq<UnitData>): string {
    "materials:\n" + JoinLines(MaterialLines(materials))
    + "\n\noperating_units:\n" + JoinLines(UnitParts(units, 0))
    + "\n\nmaterial_to_operating_unit_flow_rates:\n" + JoinLines(UnitParts(units, 1))
  }

  // ---------------------------------------------------------------------------
  // Splitting a unit's toString at ';'

  /** The pieces of a split at a one-character separator d, when s has some other
      character: some piece is not empty. */
  lemma {:induction false} SomePieceFilled(s: string, d: char, j: nat)
    requires j < |s| && s[j] != d
    ensures exists k :: 0 <= k < |SplitAll(s, [d])| && SplitAll(s, [d])[k] != []
    decreases |s|
  {
    var pieces := SplitAll(s, [d]);
    if s[0] == d {
      assert s[..1] == [d];
      SomePieceFilled(s[1..], d, j - 1);
      var k :| 0 <= k < |SplitAll(s[1..], [d])| && SplitAll(s[1..], [d])[k] != [];
      assert pieces[k + 1] == SplitAll(s[1..], [d])[k];
    } else {
      assert s[..1] != [d];
      assert pieces[0] != [];
    }
  }

  /** When a separator comes before some other character, a piece after the first
      is not empty. */
  lemma {:induction false} LaterPieceFilled(s: string, d: char, i: nat, j: nat)
    requires i < j < |s| && s[i] == d && s[j] != d
    ensures exists k :: 1 <= k < |SplitAll(s, [d])| && SplitAll(s, [d])[k] != []
    decreases |s|
  {
    var pieces := SplitAll(s, [d]);
    if s[0] == d {
      assert s[..1] == [d];
      SomePieceFilled(s[1..], d, j - 1);
      var k :| 0 <= k < |SplitAll(s[1..], [d])| && SplitAll(s[1..], [d])[k] != [];
      assert pieces[k + 1] == SplitAll(s[1..], [d])[k];
    } else {
      assert s[..1] != [d];
      LaterPieceFilled(s[1..], d, i - 1, j - 1);
      var k :| 1 <= k < |SplitAll(s[1..], [d])| && SplitAll(s[1..], [d])[k] != [];
      assert pieces[k] == SplitAll(s[1..], [d])[k];
    }
  }

  /** Dropping trailing empty pieces keeps every piece up to a filled one. */
  lemma {:induction false} DropKeepsFilled(pieces: seq<string>, k: nat)
    requires k < |pieces| && pieces[k] != []
    ensures |DropTrailingEmpty(pieces)| > k
    decreases |pieces|
  {
    if pieces[|pieces| - 1] == [] {
      DropKeepsFilled(pieces[..|pieces| - 1], k);
    }
  }

  /** The split of a unit's toString at ';' has a unit part and a flow part, whatever
      the names hold: the ':' of the flow part follows the separator. */
  lemma UnitTextPieces(u: UnitData)
    ensures |Split(UnitText(u), ";")| >= 2
  {
    var s := UnitText(u);
    var i := |UnitLine(u)|;
    var j := i + 1 + |u.name|;
    assert s[i] == ';' && s[j] == ':';
    LaterPieceFilled(s, ';', i, j);
    var k :| 1 <= k < |SplitAll(s, ";")| && SplitAll(s, ";")[k] != [];
    DropKeepsFilled(SplitAll(s, ";"), k);
  }

  // ---------------------------------------------------------------------------
  // Reading back one saved line

  /** A name the format carries unchanged: not empty, no white space at either end,
      none of the characters the lines are split at, and none of the line
      terminators Scanner.nextLine ends a line at (line feed, carriage return,
      next line, line separator, paragraph separator). */
  predicate Plain(name: string) {
    && name != [] && Trimmed(name)
    && Lacks(name, ':') && Lacks(name, ',') && Lacks(name, ';') && Lacks(name, '=') && Lacks(name, '\n')
    && Lacks(name, '\r') && Lacks(name, '\U{85}') && Lacks(name, '\U{2028}') && Lacks(name, '\U{2029}')
  }

  /** Lower-case letters and underscores only, as the format's keys and type words. */
  predicate Word(s: string) {
    s != [] && forall i :: 0 <= i < |s| ==> 'a' <= s[i] <= 'z' || s[i] == '_'
  }

  lemma WordPlain(s: string)
    requires Word(s)
    ensures Plain(s)
  {
  }

  lemma TokenWord(t: MaterialType)
    ensures Word(Token(t))
  {
    TokenWords();
    match t
    case RawMaterial => assert Word("raw_material");
    case Intermediate => assert Word("intermediate");
    case Product => assert Word("product");
  }

  lemma TokenPlain(t: MaterialType)
    ensures Plain(Token(t))
  {
    TokenWord(t);
    WordPlain(Token(t));
  }

  /** A line the loop hands to its section's parser as it is. */
  predicate PlainLine(line: string) {
    line != [] && Trimmed(line) && line[|line| - 1] != ':' && Lacks(line, '\n')
  }

  lemma PlainLineKept(line: string)
    requires PlainLine(line)
    ensures Strip(line) == line && line !in Headers && !IsBlank(line)
  {
    StripTrimmed(line);
  }

  /** "name: rest" splits at ':' into the name and the rest after one space. */
  lemma NamedLine(name: string, rest: string)
    requires Plain(name) && rest != [] && Trimmed(rest) && Lacks(rest, ':')
    ensures Split(name + ": " + rest, ":") == [name, " " + rest]
    ensures Strip(name) == name && Strip(" " + rest) == rest
    ensures PlainLine(name + ": " + rest) <==> Lacks(rest, '\n') && rest[|rest| - 1] != ':'
  {
    var line := name + ": " + rest;
    assert line == name + ":" + (" " + rest);
    assert line[0] == name[0] && line[|line| - 1] == rest[|rest| - 1];
    SplitTwo(name, ":", " " + rest);
    StripTrimmed(name);
    StripSpaceBefore(rest);
  }

  /** "a, b" splits at ',' into a and b with its leading space. */
  lemma ListOfTwo(a: string, b: string)
    requires Lacks(a, ',') && Lacks(b, ',') && b != []
    ensures Split(a + ", " + b, ",") == [a, " " + b]
  {
    assert a + ", " + b == a + "," + (" " + b);
    SplitTwo(a, ",", " " + b);
  }

  /** "a, b, c" splits at ',' into a, b and c, the last two with their leading space. */
  lemma ListOfThree(a: string, b: string, c: string)
    requires Lacks(a, ',') && Lacks(b, ',') && Lacks(c, ',') && c != []
    ensures Split(a + ", " + b + ", " + c, ",") == [a, " " + b, " " + c]
  {
    assert a + ", " + b + ", " + c == a + "," + (" " + b) + "," + (" " + c);
    SplitThree(a, ",", " " + b, " " + c);
  }

  /** A character other than ',' and ' ' that none of the items holds is not in
      the list either. */
  lemma ListOfThreeLacks(a: string, b: string, c: string, ch: char)
    requires Lacks(a, ch) && Lacks(b, ch) && Lacks(c, ch) && ch != ',' && ch != ' '
    ensures Lacks(a + ", " + b + ", " + c, ch)
  {
  }

  /** A "key=N" field with a plain key splits at '=' into the key and the number,
      with or without a space before it, and the number reads back. */
  lemma AssignmentParts(key: string, n: int32)
    requires Plain(key)
    ensures var field := Assignment(key, n as int);
      && Split(field, "=") == [key, IntToString(n as int)]
      && Split(" " + field, "=") == [" " + key, IntToString(n as int)]
      && ParseInt(Strip(IntToString(n as int))) == Some(n)
      && field != [] && Trimmed(field) && IsDigit(field[|field| - 1])
      && Lacks(field, ',') && Lacks(field, ':') && Lacks(field, ';') && Lacks(field, '\n')
  {
    var text := IntToString(n as int);
    IntToStringTrimmed(n as int);
    IntToStringChars(n as int);
    AssignmentShape(key, text);
    SplitTwo(key, "=", text);
    SplitTwo(" " + key, "=", text);
    StripTrimmed(text);
    ParseIntToString(n);
  }

  /** The shape of "key=text" for a plain key and a printed number. */
  lemma AssignmentShape(key: string, text: string)
    requires Plain(key) && text != [] && Trimmed(text)
    requires Lacks(text, '=') && Lacks(text, ',') && Lacks(text, ':') && Lacks(text, ';') && Lacks(text, '\n')
    ensures var field := key + "=" + text;
      && " " + field == " " + key + "=" + text
      && field != [] && Trimmed(field) && field[|field| - 1] == text[|text| - 1]
      && Lacks(field, ',') && Lacks(field, ':') && Lacks(field, ';') && Lacks(field, '\n')
  {
    var field := key + "=" + text;
    assert field[0] == key[0];
  }

  /** The lower-bound key is plain. */
  lemma LowerBoundKeyPlain()
    ensures Plain("flow_rate_lower_bound")
  {
    assert Word("flow_rate_lower_bound");
    WordPlain("flow_rate_lower_bound");
  }


  /** What follows "name: " in a material line: the type word and the optional
      lower bound, which split at ',' into the fields the material is built from. */
  lemma MaterialRest(name: string, token: string, kind: MaterialType, lowerBound: int32)
    requires Plain(token) && FromString(token) == Ok(kind) && lowerBound >= 0
    ensures var rest := token + LowerBoundSuffix(lowerBound);
      && rest != [] && Trimmed(rest) && Lacks(rest, ':') && Lacks(rest, '\n') && rest[|rest| - 1] != ':'
      && var data := Split(rest, ",");
      && 1 <= |data| <= 2 && FromString(Strip(data[0])) == Ok(kind)
      && MaterialFrom(name, kind, data) == Ok(MaterialData(name, kind, lowerBound))
  {
    if lowerBound > 0 {
      BoundedRest(name, token, kind, lowerBound);
    } else {
      BareRest(name, token, kind, lowerBound);
    }
  }

  /** MaterialRest when a lower bound is written: the type word and the field. */
  lemma BoundedRest(name: string, token: string, kind: MaterialType, lowerBound: int32)
    requires Plain(token) && FromString(token) == Ok(kind) && lowerBound > 0
    ensures var rest := token + LowerBoundSuffix(lowerBound);
      && rest != [] && Trimmed(rest) && Lacks(rest, ':') && Lacks(rest, '\n') && rest[|rest| - 1] != ':'
      && var data := Split(rest, ",");
      && 1 <= |data| <= 2 && FromString(Strip(data[0])) == Ok(kind)
      && MaterialFrom(name, kind, data) == Ok(MaterialData(name, kind, lowerBound))
  {
    var field := Assignment("flow_rate_lower_bound", lowerBound as int);
    LowerBoundKeyPlain();
    AssignmentParts("flow_rate_lower_bound", lowerBound);
    AppendAssoc(token, ", ", field);
    BoundedRestShape(token, field);
    StripTrimmed(token);
    ListOfTwo(token, field);
  }

  /** "token, field" is one trimmed piece of a line without ':'. */
  lemma BoundedRestShape(token: string, field: string)
    requires Plain(token) && field != [] && Trimmed(field) && IsDigit(field[|field| - 1])
    requires Lacks(field, ':') && Lacks(field, '\n')
    ensures var rest := token + (", " + field);
      rest != [] && Trimmed(rest) && Lacks(rest, ':') && Lacks(rest, '\n') && rest[|rest| - 1] != ':'
  {
    var rest := token + (", " + field);
    assert rest[0] == token[0] && rest[|rest| - 1] == field[|field| - 1];
  }

  /** MaterialRest when no lower bound is written: the type word alone. */
  lemma BareRest(name: string, token: string, kind: MaterialType, lowerBound: int32)
    requires Plain(token) && FromString(token) == Ok(kind) && lowerBound == 0
    ensures var rest := token + LowerBoundSuffix(lowerBound);
      && rest != [] && Trimmed(rest) && Lacks(rest, ':') && Lacks(rest, '\n') && rest[|rest| - 1] != ':'
      && var data := Split(rest, ",");
      && 1 <= |data| <= 2 && FromString(Strip(data[0])) == Ok(kind)
      && MaterialFrom(name, kind, data) == Ok(MaterialData(name, kind, lowerBound))
  {
    StripTrimmed(token);
    assert token + LowerBoundSuffix(lowerBound) == token;
    SplitNone(token, ",");
  }

  /** A material line with a plain name, a plain type word and a bound that is not
      negative parses into those three. */
  lemma MaterialLineParsed(name: string, token: string, kind: MaterialType, lowerBound: int32)
    requires Plain(name) && Plain(token) && FromString(token) == Ok(kind) && lowerBound >= 0
    ensures var line := name + ": " + token + LowerBoundSuffix(lowerBound);
      ParseMaterial(line) == Ok(MaterialData(name, kind, lowerBound)) && PlainLine(line)
  {
    var suffix := LowerBoundSuffix(lowerBound);
    var rest := token + suffix;
    var line := name + ": " + token + suffix;
    AppendAssoc(name + ": ", token, suffix);
    MaterialRest(name, token, kind, lowerBound);
    NamedLine(name, rest);
    assert Split(line, ":") == [name, " " + rest];
    assert Strip(Split(line, ":")[1]) == rest;
  }

  /** A material line reads back as the material, provided its name is plain and
      its lower bound is not negative. */
  lemma MaterialRoundTrip(d: MaterialData)
    requires Plain(d.name) && d.lowerBound >= 0
    ensures ParseMaterial(MaterialText(d)) == Ok(d)
    ensures PlainLine(MaterialText(d))
  {
    TokenPlain(d.kind);
    FromStringToken(d.kind);
    MaterialLineParsed(d.name, Token(d.kind), d.kind, d.lowerBound);
  }

  /** A saved lower bound below zero is not written, so it reads back as 0. */
  lemma NegativeLowerBoundLost(d: MaterialData)
    requires Plain(d.name) && d.lowerBound < 0
    ensures ParseMaterial(MaterialText(d)) == Ok(d.(lowerBound := 0))
  {
    MaterialRoundTrip(d.(lowerBound := 0));
  }

  /** A unit linked to no material is saved with the flow line "name:  => ", which
      holds nothing on either side of "=>", so reading it back fails. */
  lemma UnlinkedUnitLost(u: UnitData)
    requires Plain(u.name) && u.inputName == "" && u.outputName == ""
    ensures ParseFlow(Strip(FlowLine(u))) == Err(InvalidFlowData)
  {
    var line := u.name + ":" + "  =>";
    assert FlowLine(u) == line + " ";
    StripSpaceAfter(line);
    SplitTwo(u.name, ":", "  =>");
    assert Strip("  =>") == "=>" by {
      assert TrimLeft("  =>") == TrimLeft(" =>") == TrimLeft("=>") == "=>";
    }
    assert SplitAll("=>", "=>") == ["", ""] by {
      assert SplitAll("", "=>") == [""];
    }
  }

  /** The unit's three numbers are read by position: whatever plain keys come
      before '=', fields 0, 1 and 2 are the capacity, the fixed cost and the
      proportional cost. */
  lemma UnitKeysIgnored(name: string, k0: string, k1: string, k2: string, c: int32, f: int32, p: int32)
    requires Plain(name) && Plain(k0) && Plain(k1) && Plain(k2)
    ensures ParseUnit(name + ": " + Fields(k0, k1, k2, c, f, p)) == Ok(UnitData(name, c, f, p, "", ""))
  {
    var rest := Fields(k0, k1, k2, c, f, p);
    FieldsShape(k0, k1, k2, c, f, p);
    FieldsValues(k0, k1, k2, c, f, p);
    NamedLine(name, rest);
    var line := name + ": " + rest;
    var data := Split(rest, ",");
    assert Split(line, ":") == [name, " " + rest];
    assert Strip(Split(line, ":")[1]) == rest;
    assert UnitFrom(Split(line, ":"), data) == Ok(UnitData(name, c, f, p, "", ""));
  }

  /** The data part of a unit line: three "key=N" fields. */
  function Fields(k0: string, k1: string, k2: string, c: int32, f: int32, p: int32): string {
    Assignment(k0, c as int) + ", " + Assignment(k1, f as int) + ", " + Assignment(k2, p as int)
  }

  lemma FieldsShape(k0: string, k1: string, k2: string, c: int32, f: int32, p: int32)
    requires Plain(k0) && Plain(k1) && Plain(k2)
    ensures var rest := Fields(k0, k1, k2, c, f, p);
      && rest != [] && Trimmed(rest) && rest[|rest| - 1] != ':'
      && Lacks(rest, ':') && Lacks(rest, '\n') && Lacks(rest, ';')
  {
    var a := Assignment(k0, c as int);
    var b := Assignment(k1, f as int);
    var e := Assignment(k2, p as int);
    AssignmentParts(k0, c);
    AssignmentParts(k1, f);
    AssignmentParts(k2, p);
    var rest := a + ", " + b + ", " + e;
    assert rest[0] == a[0] && rest[|rest| - 1] == e[|e| - 1];
    ListOfThreeLacks(a, b, e, ':');
    ListOfThreeLacks(a, b, e, '\n');
    ListOfThreeLacks(a, b, e, ';');
  }

  /** The three fields split at ',' and give back the three numbers. */
  lemma FieldsValues(k0: string, k1: string, k2: string, c: int32, f: int32, p: int32)
    requires Plain(k0) && Plain(k1) && Plain(k2)
    ensures var data := Split(Fields(k0, k1, k2, c, f, p), ",");
      && |data| == 3 && FieldValue(data[0]) == Ok(c) && FieldValue(data[1]) == Ok(f) && FieldValue(data[2]) == Ok(p)
  {
    var a := Assignment(k0, c as int);
    var b := Assignment(k1, f as int);
    var e := Assignment(k2, p as int);
    AssignmentParts(k0, c);
    AssignmentParts(k1, f);
    AssignmentParts(k2, p);
    ListOfThree(a, b, e);
  }

  /** The three keys a unit is saved with are plain. */
  lemma UnitKeysPlain()
    ensures Plain("capacity_upper_bound") && Plain("fix_cost") && Plain("proportional_cost")
  {
    assert Word("capacity_upper_bound");
    WordPlain("capacity_upper_bound");
    assert Word("fix_cost");
    WordPlain("fix_cost");
    assert Word("proportional_cost");
    WordPlain("proportional_cost");
  }

  /** A unit line is one line the loop hands on unchanged, without ';'. */
  lemma UnitLineShape(u: UnitData)
    requires Plain(u.name)
    ensures PlainLine(UnitLine(u)) && Lacks(UnitLine(u), ';')
  {
    UnitKeysPlain();
    var rest := Fields("capacity_upper_bound", "fix_cost", "proportional_cost", u.capacity, u.fixedCost, u.proportionalCost);
    FieldsShape("capacity_upper_bound", "fix_cost", "proportional_cost", u.capacity, u.fixedCost, u.proportionalCost);
    NamedLine(u.name, rest);
  }

  /** The unit part of toString reads back as the unit, with no material set yet. */
  lemma UnitRoundTrip(u: UnitData)
    requires Plain(u.name)
    ensures ParseUnit(UnitLine(u)) == Ok(u.(inputName := "", outputName := ""))
  {
    UnitKeysPlain();
    UnitKeysIgnored(u.name, "capacity_upper_bound", "fix_cost", "proportional_cost",
                    u.capacity, u.fixedCost, u.proportionalCost);
  }

  /** A flow line is one line the loop hands on unchanged, without ';'. */
  lemma FlowLineShape(u: UnitData)
    requires Plain(u.name) && Plain(u.inputName) && Plain(u.outputName)
    ensures PlainLine(FlowLine(u)) && Lacks(FlowLine(u), ';')
  {
    var rest := u.inputName + " => " + u.outputName;
    assert rest[0] == u.inputName[0];
    assert rest[|rest| - 1] == u.outputName[|u.outputName| - 1];
    ArrowLacks(u.inputName, u.outputName, ':');
    ArrowLacks(u.inputName, u.outputName, '\n');
    ArrowLacks(u.inputName, u.outputName, ';');
    NamedLine(u.name, rest);
  }

  /** The flow part of toString reads back as the unit's name and its two material
      names. */
  lemma FlowRoundTrip(u: UnitData)
    requires Plain(u.name) && Plain(u.inputName) && Plain(u.outputName)
    ensures ParseFlow(FlowLine(u)) == Ok(Flow(u.name, u.inputName, u.outputName))
  {
    var rest := u.inputName + " => " + u.outputName;
    FlowLineShape(u);
    NamedLine(u.name, rest);
    ArrowSplit(u.inputName, u.outputName);
    var line := FlowLine(u);
    assert Split(line, ":") == [u.name, " " + rest];
    assert Split(Strip(Split(line, ":")[1]), "=>") == [u.inputName + " ", " " + u.outputName];
  }

  /** "a => b" splits at "=>" into a and b, each with its space, which strip removes. */
  lemma ArrowSplit(a: string, b: string)
    requires Plain(a) && Plain(b)
    ensures Split(a + " => " + b, "=>") == [a + " ", " " + b]
    ensures Strip(a + " ") == a && Strip(" " + b) == b
  {
    assert a + " => " + b == (a + " ") + "=>" + (" " + b);
    SplitTwo(a + " ", "=>", " " + b);
    StripSpaceAfter(a);
    StripSpaceBefore(b);
  }

  lemma ArrowLacks(a: string, b: string, ch: char)
    requires Lacks(a, ch) && Lacks(b, ch) && ch != ' ' && ch != '=' && ch != '>'
    ensures Lacks(a + " => " + b, ch)
  {
  }

  /** With plain names, the two parts of a unit's toString are its unit line and
      its flow line. */
  lemma UnitPartsPlain(u: UnitData)
    requires Plain(u.name) && Plain(u.inputName) && Plain(u.outputName)
    ensures UnitPart(u, 0) == UnitLine(u) && UnitPart(u, 1) == FlowLine(u)
    ensures PlainLine(UnitPart(u, 0)) && PlainLine(UnitPart(u, 1))
  {
    UnitLineShape(u);
    FlowLineShape(u);
    SplitTwo(UnitLine(u), ";", FlowLine(u));
  }

  // ---------------------------------------------------------------------------
  // Loading what was saved

  /** The loop over a + b is the loop over a, then over b from where a left off. */
  lemma {:induction false} LoadFromAppend(st: Loaded, a: seq<string>, b: seq<string>, mid: Loaded)
    requires LoadFrom(st, a) == Ok(mid)
    ensures LoadFrom(st, a + b) == LoadFrom(mid, b)
    decreases |a|
  {
    if a == [] {
      assert a + b == b;
    } else {
      assert (a + b)[0] == a[0] && (a + b)[1..] == a[1..] + b;
      var next := Step(st, a[0]).value;
      LoadFromAppend(next, a[1..], b, mid);
    }
  }

  /** The fields of the units, as the writer gets them. */
  function Datas(units: seq<LoadedUnit>): (r: seq<UnitData>)
    ensures |r| == |units| && forall k :: 0 <= k < |units| ==> r[k] == units[k].data
  {
    seq(|units|, k requires 0 <= k < |units| => units[k].data)
  }

  /** The unit refers to materials in the list by position, and carries their names. */
  predicate Linked(materials: seq<MaterialData>, u: LoadedUnit) {
    && u.input.Some? && u.input.value < |materials| && u.data.inputName == materials[u.input.value].name
    && u.output.Some? && u.output.value < |materials| && u.data.outputName == materials[u.output.value].name
  }

  /** A problem the save layout writes so that the loader can read it back: plain
      and distinct names, no negative lower bound, every unit linked to both of its
      materials. */
  predicate Savable(materials: seq<MaterialData>, units: seq<LoadedUnit>) {
    && (forall i :: 0 <= i < |materials| ==> Plain(materials[i].name) && materials[i].lowerBound >= 0)
    && (forall i, j :: 0 <= i < j < |materials| ==> materials[i].name != materials[j].name)
    && (forall k :: 0 <= k < |units| ==> Plain(units[k].data.name) && Linked(materials, units[k]))
    && (forall k, l :: 0 <= k < l < |units| ==> units[k].data.name != units[l].data.name)
  }

  /** A unit as its line in the unit section loads it: no material yet. */
  function Unlinked(u: UnitData): LoadedUnit {
    LoadedUnit(u.(inputName := "", outputName := ""), None, None)
  }

  function AllUnlinked(units: seq<UnitData>): (r: seq<LoadedUnit>)
    ensures |r| == |units| && forall k :: 0 <= k < |units| ==> r[k] == Unlinked(units[k])
  {
    seq(|units|, k requires 0 <= k < |units| => Unlinked(units[k]))
  }

  lemma AllUnlinkedFirst(units: seq<UnitData>)
    requires units != []
    ensures AllUnlinked(units) == [Unlinked(units[0])] + AllUnlinked(units[1..])
  {
    var a := AllUnlinked(units);
    var b := [Unlinked(units[0])] + AllUnlinked(units[1..]);
    forall i | 0 <= i < |a|
      ensures a[i] == b[i]
    {
      if i > 0 {
        assert units[1..][i - 1] == units[i];
      }
    }
  }

  /** The units after the first k flow lines: those linked, the rest as loaded. */
  function Pending(units: seq<LoadedUnit>, k: nat): (r: seq<LoadedUnit>)
    requires k <= |units|
    ensures |r| == |units|
  {
    units[..k] + AllUnlinked(Datas(units[k..]))
  }

  /** The lines of a problem text hold no line feed. */
  predicate SingleLines(lines: seq<string>) {
    forall i :: 0 <= i < |lines| ==> Lacks(lines[i], '\n')
  }

  /** A header line opens the next section. */
  lemma StepHeader(st: Loaded, raw: string)
    requires Strip(raw) in Headers
    ensures Step(st, raw) == Ok(st.(section := st.section + 1))
  {
  }

  /** An empty line inside a section changes nothing. */
  lemma StepEmpty(st: Loaded)
    requires st.section >= 0
    ensures Step(st, "") == Ok(st)
  {
    assert Strip("") == "";
  }

  /** A line the loop hands on unchanged, in the material section. */
  lemma StepMaterial(st: Loaded, line: string, m: MaterialData)
    requires st.section == 0 && PlainLine(line) && ParseMaterial(line) == Ok(m)
    ensures Step(st, line) == Ok(st.(materials := st.materials + [m]))
  {
    PlainLineKept(line);
  }

  /** A line the loop hands on unchanged, in the unit section. */
  lemma StepUnit(st: Loaded, line: string, u: UnitData)
    requires st.section == 1 && PlainLine(line) && ParseUnit(line) == Ok(u)
    ensures Step(st, line) == Ok(st.(units := st.units + [LoadedUnit(u, None, None)]))
  {
    PlainLineKept(line);
  }

  /** A line the loop hands on unchanged, in the flow section. */
  lemma StepFlow(st: Loaded, line: string, flow: Flow)
    requires st.section == 2 && PlainLine(line) && ParseFlow(line) == Ok(flow)
    ensures Step(st, line) == Connect(st, flow)
  {
    PlainLineKept(line);
  }

  /** The three headers, each stripped to itself. */
  lemma HeadersKept()
    ensures Strip(MaterialsHeader) in Headers && Strip(UnitsHeader) in Headers && Strip(FlowsHeader) in Headers
  {
    StripTrimmed(MaterialsHeader);
    StripTrimmed(UnitsHeader);
    StripTrimmed(FlowsHeader);
  }

  /** Two empty lines and a header: the next section opens. */
  lemma BlanksThenHeader(st: Loaded, h: string)
    requires st.section >= 0 && Strip(h) in Headers
    ensures LoadFrom(st, ["", "", h]) == Ok(st.(section := st.section + 1))
  {
    var next := st.(section := st.section + 1);
    StepEmpty(st);
    StepHeader(st, h);
    assert [h][1..] == [];
    assert LoadFrom(st, [h]) == Ok(next);
    assert ["", h][1..] == [h];
    assert LoadFrom(st, ["", h]) == Ok(next);
    assert ["", "", h][1..] == ["", h];
  }

  /** The material section loads the materials in order. */
  lemma {:induction false} LoadMaterialLines(st: Loaded, materials: seq<MaterialData>)
    requires st.section == 0
    requires forall i :: 0 <= i < |materials| ==> Plain(materials[i].name) && materials[i].lowerBound >= 0
    ensures LoadFrom(st, MaterialLines(materials)) == Ok(st.(materials := st.materials + materials))
    decreases |materials|
  {
    var lines := MaterialLines(materials);
    if materials == [] {
      assert st.materials + materials == st.materials;
    } else {
      MaterialRoundTrip(materials[0]);
      var next := st.(materials := st.materials + [materials[0]]);
      StepMaterial(st, lines[0], materials[0]);
      MaterialLinesFirst(materials);
      LoadMaterialLines(next, materials[1..]);
      AppendAssoc(st.materials, [materials[0]], materials[1..]);
      assert [materials[0]] + materials[1..] == materials;
    }
  }

  lemma MaterialLinesSingle(materials: seq<MaterialData>)
    requires forall i :: 0 <= i < |materials| ==> Plain(materials[i].name) && materials[i].lowerBound >= 0
    ensures SingleLines(MaterialLines(materials))
  {
    forall i | 0 <= i < |materials|
      ensures Lacks(MaterialLines(materials)[i], '\n')
    {
      MaterialRoundTrip(materials[i]);
    }
  }

  lemma UnitPartSingle(u: UnitData, j: nat)
    requires j < 2 && PlainUnit(u)
    ensures Lacks(UnitPart(u, j), '\n')
  {
    UnitPartsPlain(u);
  }

  lemma UnitPartsSingle(units: seq<UnitData>, j: nat)
    requires j < 2 && forall k :: 0 <= k < |units| ==> PlainUnit(units[k])
    ensures SingleLines(UnitParts(units, j))
  {
    forall k | 0 <= k < |units|
      ensures Lacks(UnitParts(units, j)[k], '\n')
    {
      UnitPartSingle(units[k], j);
    }
  }


  /** Fields whose names the save layout keeps. */
  predicate PlainUnit(u: UnitData) {
    Plain(u.name) && Plain(u.inputName) && Plain(u.outputName)
  }

  /** Every unit is a PlainUnit, stated one unit at a time. */
  predicate PlainUnits(units: seq<UnitData>) {
    units == [] || (PlainUnit(units[0]) && PlainUnits(units[1..]))
  }

  lemma {:induction false} AllPlainUnits(units: seq<UnitData>)
    requires forall k :: 0 <= k < |units| ==> PlainUnit(units[k])
    ensures PlainUnits(units)
    decreases |units|
  {
    if units != [] {
      assert forall k :: 0 <= k < |units[1..]| ==> units[1..][k] == units[k + 1];
      AllPlainUnits(units[1..]);
    }
  }

  /** A saved unit line adds the unit, with no material yet. */
  lemma StepUnitLine(st: Loaded, u: UnitData)
    requires st.section == 1 && Plain(u.name)
    ensures Step(st, UnitLine(u)) == Ok(st.(units := st.units + [Unlinked(u)]))
  {
    UnitLineShape(u);
    UnitRoundTrip(u);
    StepUnit(st, UnitLine(u), u.(inputName := "", outputName := ""));
  }

  /** The unit section loads the units in order, none linked yet. */
  lemma {:induction false} LoadUnitLines(st: Loaded, units: seq<UnitData>)
    requires st.section == 1 && PlainUnits(units)
    ensures LoadFrom(st, UnitParts(units, 0)) == Ok(st.(units := st.units + AllUnlinked(units)))
    decreases |units|
  {
    var lines := UnitParts(units, 0);
    if units == [] {
      assert st.units + AllUnlinked(units) == st.units;
    } else {
      var tail := UnitParts(units[1..], 0);
      var next := st.(units := st.units + [Unlinked(units[0])]);
      UnitPartsFirst(units, 0);
      UnitPartsPlain(units[0]);
      assert lines[0] == UnitLine(units[0]) && lines[1..] == tail;
      StepUnitLine(st, units[0]);
      LoadUnitLines(next, units[1..]);
      assert LoadFrom(st, lines) == LoadFrom(next, tail);
      AppendAssoc(st.units, [Unlinked(units[0])], AllUnlinked(units[1..]));
      AllUnlinkedFirst(units);
    }
  }


  // ---------------------------------------------------------------------------
  // The flow section

  lemma PendingUnits(units: seq<LoadedUnit>, k: nat)
    requires k <= |units|
    ensures forall j :: 0 <= j < k ==> Pending(units, k)[j] == units[j]
    ensures forall j :: k <= j < |units| ==> Pending(units, k)[j] == Unlinked(units[j].data)
  {
    var tail := Datas(units[k..]);
    forall j | k <= j < |units|
      ensures Pending(units, k)[j] == Unlinked(units[j].data)
    {
      assert tail[j - k] == units[j].data;
    }
  }

  /** The unit the k-th flow line names is found at k, and the materials it names
      at the positions the unit refers to. */
  lemma FlowFinds(materials: seq<MaterialData>, units: seq<LoadedUnit>, k: nat)
    requires Savable(materials, units) && k < |units|
    ensures FirstUnit(Pending(units, k), units[k].data.name) == Some(k)
    ensures LastMaterial(materials, units[k].data.inputName) == units[k].input
    ensures LastMaterial(materials, units[k].data.outputName) == units[k].output
  {
    var u := units[k];
    PendingUnits(units, k);
    FirstUnitAt(Pending(units, k), k);
    LastMaterialAt(materials, u.input.value);
    LastMaterialAt(materials, u.output.value);
  }

  /** A unit whose name no earlier unit has is the one found by its name. */
  lemma FirstUnitAt(units: seq<LoadedUnit>, k: nat)
    requires k < |units| && forall j :: 0 <= j < k ==> units[j].data.name != units[k].data.name
    ensures FirstUnit(units, units[k].data.name) == Some(k)
  {
  }

  /** With distinct names, the last material with a name is the only one. */
  lemma LastMaterialAt(materials: seq<MaterialData>, i: nat)
    requires i < |materials|
    requires forall a, b :: 0 <= a < b < |materials| ==> materials[a].name != materials[b].name
    ensures LastMaterial(materials, materials[i].name) == Some(i)
  {
  }

  /** The k-th flow line links the k-th unit as it was saved. */
  lemma ConnectPending(materials: seq<MaterialData>, units: seq<LoadedUnit>, k: nat)
    requires Savable(materials, units) && k < |units|
    ensures var u := units[k].data;
      Connect(Loaded(2, materials, Pending(units, k)), Flow(u.name, u.inputName, u.outputName))
        == Ok(Loaded(2, materials, Pending(units, k + 1)))
  {
    FlowFinds(materials, units, k);
    PendingUnits(units, k);
    PendingUnits(units, k + 1);
    var u := units[k];
    var data := Pending(units, k)[k].data.(inputName := materials[u.input.value].name,
                                            outputName := materials[u.output.value].name);
    assert LoadedUnit(data, u.input, u.output) == u;
    assert Pending(units, k)[k := u] == Pending(units, k + 1);
  }

  /** A saved flow line is handed to the parser as it is and reads back. */
  lemma StepFlowLine(materials: seq<MaterialData>, units: seq<LoadedUnit>, k: nat)
    requires Savable(materials, units) && k < |units|
    ensures var line := UnitParts(Datas(units), 1)[k];
      Step(Loaded(2, materials, Pending(units, k)), line) == Ok(Loaded(2, materials, Pending(units, k + 1)))
  {
    var u := units[k].data;
    assert Datas(units)[k] == u;
    UnitPartsPlain(u);
    FlowRoundTrip(u);
    StepFlow(Loaded(2, materials, Pending(units, k)), FlowLine(u), Flow(u.name, u.inputName, u.outputName));
    ConnectPending(materials, units, k);
  }

  /** The flow section links every unit, in order, to its saved materials. */
  lemma {:induction false} LoadFlowLines(materials: seq<MaterialData>, units: seq<LoadedUnit>, k: nat)
    requires Savable(materials, units) && k <= |units|
    ensures LoadFrom(Loaded(2, materials, Pending(units, k)), UnitParts(Datas(units), 1)[k..])
         == Ok(Loaded(2, materials, units))
    decreases |units| - k
  {
    var lines := UnitParts(Datas(units), 1);
    if k == |units| {
      assert Pending(units, k) == units;
      assert lines[k..] == [];
    } else {
      StepFlowLine(materials, units, k);
      LoadFlowLines(materials, units, k + 1);
      assert lines[k..][0] == lines[k] && lines[k..][1..] == lines[k + 1..];
    }
  }

  // ---------------------------------------------------------------------------
  // The whole file

  /** The lines of the saved text: each header, the two empty lines before the
      second and the third, and the sections' lines. */
  function SavedLines(materials: seq<MaterialData>, units: seq<UnitData>): seq<string> {
    [MaterialsHeader] + MaterialLines(materials) + ["", "", UnitsHeader] + UnitParts(units, 0)
    + ["", "", FlowsHeader] + UnitParts(units, 1)
  }

  lemma BlanksThenHeaderJoined(h: string)
    ensures JoinLines(["", "", h]) == "\n\n" + h + "\n"
  {
    assert [h][1..] == [];
    assert JoinLines([h]) == h + "\n";
    assert ["", h][1..] == [h];
    assert JoinLines(["", h]) == "\n" + (h + "\n");
    assert ["", "", h][1..] == ["", h];
  }

  /** The fixed text between the sections, as lines. */
  lemma SeparatorsJoined()
    ensures JoinLines([MaterialsHeader]) == "materials:\n"
    ensures JoinLines(["", "", UnitsHeader]) == "\n\noperating_units:\n"
    ensures JoinLines(["", "", FlowsHeader]) == "\n\nmaterial_to_operating_unit_flow_rates:\n"
  {
    assert [MaterialsHeader][1..] == [];
    UnitsSeparator();
    FlowsSeparator();
  }

  lemma UnitsSeparator()
    ensures JoinLines(["", "", UnitsHeader]) == "\n\noperating_units:\n"
  {
    BlanksThenHeaderJoined(UnitsHeader);
  }

  lemma FlowsSeparator()
    ensures JoinLines(["", "", FlowsHeader]) == "\n\nmaterial_to_operating_unit_flow_rates:\n"
  {
    BlanksThenHeaderJoined(FlowsHeader);
  }

  /** The saved text is its lines, each followed by a line feed. */
  lemma SaveTextLines(materials: seq<MaterialData>, units: seq<UnitData>)
    ensures SaveText(materials, units) == JoinLines(SavedLines(materials, units))
  {
    var s1, s2, s3 := [MaterialsHeader], MaterialLines(materials), ["", "", UnitsHeader];
    var s4, s5, s6 := UnitParts(units, 0), ["", "", FlowsHeader], UnitParts(units, 1);
    JoinLinesAppend(s1, s2);
    JoinLinesAppend(s1 + s2, s3);
    JoinLinesAppend(s1 + s2 + s3, s4);
    JoinLinesAppend(s1 + s2 + s3 + s4, s5);
    JoinLinesAppend(s1 + s2 + s3 + s4 + s5, s6);
    SeparatorsJoined();
  }

  lemma SingleLinesAppend(a: seq<string>, b: seq<string>)
    requires SingleLines(a) && SingleLines(b)
    ensures SingleLines(a + b)
  {
    forall i | 0 <= i < |a + b|
      ensures Lacks((a + b)[i], '\n')
    {
      if i >= |a| {
        assert (a + b)[i] == b[i - |a|];
      }
    }
  }

  /** Every saved line is one line of the text. */
  lemma SavedLinesSingle(materials: seq<MaterialData>, units: seq<UnitData>)
    requires forall i :: 0 <= i < |materials| ==> Plain(materials[i].name) && materials[i].lowerBound >= 0
    requires forall k :: 0 <= k < |units| ==> PlainUnit(units[k])
    ensures SingleLines(SavedLines(materials, units))
  {
    var s1, s2, s3 := [MaterialsHeader], MaterialLines(materials), ["", "", UnitsHeader];
    var s4, s5, s6 := UnitParts(units, 0), ["", "", FlowsHeader], UnitParts(units, 1);
    assert SingleLines(s1) && SingleLines(s3) && SingleLines(s5);
    MaterialLinesSingle(materials);
    UnitPartsSingle(units, 0);
    UnitPartsSingle(units, 1);
    SingleLinesAppend(s1, s2);
    SingleLinesAppend(s1 + s2, s3);
    SingleLinesAppend(s1 + s2 + s3, s4);
    SingleLinesAppend(s1 + s2 + s3 + s4, s5);
    SingleLinesAppend(s1 + s2 + s3 + s4 + s5, s6);
  }

  /** The saved units' fields keep their names in the layout. */
  lemma SavableUnitsPlain(materials: seq<MaterialData>, units: seq<LoadedUnit>)
    requires Savable(materials, units)
    ensures forall k :: 0 <= k < |units| ==> PlainUnit(Datas(units)[k])
  {
  }

  /** The material section of the saved lines, up to the unit header. */
  lemma LoadSavedMaterials(materials: seq<MaterialData>)
    requires forall i :: 0 <= i < |materials| ==> Plain(materials[i].name) && materials[i].lowerBound >= 0
    ensures LoadFrom(Start, [MaterialsHeader] + MaterialLines(materials) + ["", "", UnitsHeader])
         == Ok(Loaded(1, materials, []))
  {
    var s1, s2, s3 := [MaterialsHeader], MaterialLines(materials), ["", "", UnitsHeader];
    HeadersKept();
    var st1 := Loaded(0, [], []);
    StepHeader(Start, MaterialsHeader);
    assert LoadFrom(Start, s1) == Ok(st1);
    var st2 := Loaded(0, materials, []);
    LoadMaterialLines(st1, materials);
    assert [] + materials == materials;
    LoadFromAppend(Start, s1, s2, st1);
    BlanksThenHeader(st2, UnitsHeader);
    LoadFromAppend(Start, s1 + s2, s3, st2);
  }

  /** After the material section, the unit lines and the flow header leave every
      unit in place and not yet linked. */
  lemma LoadSavedUnits(prefix: seq<string>, materials: seq<MaterialData>, units: seq<UnitData>)
    requires LoadFrom(Start, prefix) == Ok(Loaded(1, materials, []))
    requires PlainUnits(units)
    ensures LoadFrom(Start, prefix + UnitParts(units, 0) + ["", "", FlowsHeader])
         == Ok(Loaded(2, materials, AllUnlinked(units)))
  {
    HeadersKept();
    var st3 := Loaded(1, materials, []);
    var st4 := Loaded(1, materials, AllUnlinked(units));
    LoadUnitLines(st3, units);
    assert [] + AllUnlinked(units) == AllUnlinked(units);
    LoadFromAppend(Start, prefix, UnitParts(units, 0), st3);
    BlanksThenHeader(st4, FlowsHeader);
    LoadFromAppend(Start, prefix + UnitParts(units, 0), ["", "", FlowsHeader], st4);
  }

  /** The loop over the saved lines ends in the flow section with the materials
      and the linked units. */
  lemma LoadSavedLines(materials: seq<MaterialData>, units: seq<LoadedUnit>)
    requires Savable(materials, units)
    ensures Load(SavedLines(materials, Datas(units))) == Ok(Loaded(2, materials, units))
  {
    var d := Datas(units);
    var head := [MaterialsHeader] + MaterialLines(materials) + ["", "", UnitsHeader];
    var body := head + UnitParts(d, 0) + ["", "", FlowsHeader];
    SavableUnitsPlain(materials, units);
    LoadSavedMaterials(materials);
    AllPlainUnits(d);
    LoadSavedUnits(head, materials, d);
    assert units[..0] == [] && units[0..] == units;
    assert Pending(units, 0) == AllUnlinked(d);
    LoadFlowLines(materials, units, 0);
    assert UnitParts(d, 1)[0..] == UnitParts(d, 1);
    LoadFromAppend(Start, body, UnitParts(d, 1), Loaded(2, materials, AllUnlinked(d)));
  }

  /** The loader reads back what the writer saved: the same materials in the same
      order, and the same units, each linked to the materials it was linked to. */
  lemma LoadSaved(materials: seq<MaterialData>, units: seq<LoadedUnit>)
    requires Savable(materials, units)
    ensures Load(Lines(SaveText(materials, Datas(units)))) == Ok(Loaded(2, materials, units))
  {
    var d := Datas(units);
    SavableUnitsPlain(materials, units);
    SaveTextLines(materials, d);
    SavedLinesSingle(materials, d);
    LinesOfJoinLines(SavedLines(materials, d));
    LoadSavedLines(materials, units);
  }
}
