/** Materials of the process network and the three kinds a material can be. */
module Materials {
  import opened Wrappers
  import opened Java

  /** Declared in this order; the first one that matches wins when parsing. */
  datatype MaterialType = RawMaterial | Intermediate | Product

  const AllTypes: seq<MaterialType> := [RawMaterial, Intermediate, Product]

  /** The type's toString. */
  function DisplayName(t: MaterialType): string {
    match t
    case RawMaterial => "Raw Material"
    case Intermediate => "Intermediate"
    case Product => "Product"
  }

  /** The words a type accepts, compared without regard to case. */
  predicate Matches(t: MaterialType, value: string) {
    match t
    case RawMaterial => EqualsIgnoreCase(value, "raw_material") || EqualsIgnoreCase(value, "raw material")
    case Intermediate => EqualsIgnoreCase(value, "intermediate")
    case Product => EqualsIgnoreCase(value, "product")
  }

  /** Type.fromString: the first type, in declaration order, that matches. */
  function FromString(value: string): Result<MaterialType, Failure> {
    FirstMatch(AllTypes, value)
  }

  function FirstMatch(types: seq<MaterialType>, value: string): (r: Result<MaterialType, Failure>)
    ensures r.Ok? ==> r.value in types && Matches(r.value, value)
    ensures r.Err? ==> r.error == InvalidType && forall t :: t in types ==> !Matches(t, value)
  {
    if types == [] then Err(InvalidType)
    else if Matches(types[0], value) then Ok(types[0])
    else FirstMatch(types[1..], value)
  }

  /** The type word Material.toString writes: the display name in lower case with
      spaces turned into underscores. */
  function Token(t: MaterialType): string {
    Replace(ToLower(DisplayName(t)), ' ', '_')
  }

  lemma TokenWords()
    ensures Token(RawMaterial) == "raw_material"
    ensures Token(Intermediate) == "intermediate"
    ensures Token(Product) == "product"
  {
    assert ToLower("Raw Material") == "raw material";
    assert ToLower("Intermediate") == "intermediate";
    assert ToLower("Product") == "product";
  }

  /** No text is accepted by two types, so the first match is the only one. */
  lemma MatchesDisjoint(s: MaterialType, t: MaterialType, value: string)
    requires Matches(s, value) && Matches(t, value)
    ensures s == t
  {
    var first := ToLowerChar(value[0]);
    assert s.RawMaterial? ==> first == 'r';
    assert s.Intermediate? ==> first == 'i';
    assert s.Product? ==> first == 'p';
    assert t.RawMaterial? ==> first == 'r';
    assert t.Intermediate? ==> first == 'i';
    assert t.Product? ==> first == 'p';
  }

  /** fromString yields t exactly when t matches, and fails exactly when no type does. */
  lemma FromStringMatches(value: string, t: MaterialType)
    ensures FromString(value) == Ok(t) <==> Matches(t, value)
    ensures FromString(value).Err? <==> forall u: MaterialType :: !Matches(u, value)
  {
    var r := FromString(value);
    if Matches(t, value) {
      assert t in AllTypes;
      if r.Ok? {
        MatchesDisjoint(r.value, t, value);
      }
    }
    forall u: MaterialType | Matches(u, value)
      ensures r.Ok?
    {
      assert u in AllTypes;
    }
  }

  /** Reading back the word toString writes gives the same type. */
  lemma FromStringToken(t: MaterialType)
    ensures FromString(Token(t)) == Ok(t)
  {
    TokenWords();
    FromStringMatches(Token(t), t);
  }

  /** The fields Material.toString prints. */
  datatype MaterialData = MaterialData(name: string, kind: MaterialType, lowerBound: int32)

  /** Material.toString: "name: token", then ", flow_rate_lower_bound=N" only when
      the lower bound is positive. */
  function MaterialText(d: MaterialData): string {
    d.name + ": " + Token(d.kind) + LowerBoundSuffix(d.lowerBound)
  }

  function LowerBoundSuffix(lowerBound: int32): string {
    if lowerBound > 0 then ", " + Assignment("flow_rate_lower_bound", lowerBound as int) else ""
  }

  class Material {
    const name: string
    /** The field the source calls `type`. */
    const kind: MaterialType
    var lowerBound: int32

    /** A new material has lower bound 0. */
    constructor(name: string, kind: MaterialType)
      ensures this.name == name && this.kind == kind && lowerBound == 0
    {
      this.name := name;
      this.kind := kind;
      this.lowerBound := 0;
    }

    method SetLowerBound(lowerBound: int32)
      modifies this`lowerBound
      ensures this.lowerBound == lowerBound
    {
      this.lowerBound := lowerBound;
    }

    function View(): MaterialData
      reads this
    {
      MaterialData(name, kind, lowerBound)
    }
  }
}
