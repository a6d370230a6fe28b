/** Operating units: a capacity, two costs, and the material each one consumes and
    the material it produces. */
module OperatingUnits {
  import opened Wrappers
  import opened Java
  import opened Materials

  /** The fields of a unit other than its material references. */
  datatype UnitData = UnitData(
    name: string, capacity: int32, fixedCost: int32, proportionalCost: int32,
    inputName: string, outputName: string)

  /** The unit part of toString (the key for the fixed cost is "fix_cost"). */
  function UnitLine(u: UnitData): string {
    u.name + ": " + (Assignment("capacity_upper_bound", u.capacity as int)
                     + ", " + Assignment("fix_cost", u.fixedCost as int)
                     + ", " + Assignment("proportional_cost", u.proportionalCost as int))
  }

  /** The flow part of toString: "name: input => output". */
  function FlowLine(u: UnitData): string {
    u.name + ": " + (u.inputName + " => " + u.outputName)
  }

  /** OperatingUnit.toString: the two parts joined by ';'. */
  function UnitText(u: UnitData): string {
    UnitLine(u) + ";" + FlowLine(u)
  }

  class OperatingUnit {
    const name: string
    const capacity: int32
    const fixedCost: int32
    const proportionalCost: int32
    var inputMaterial: Material?
    var outputMaterial: Material?
    var inputMaterialName: string
    var outputMaterialName: string

    /** Stores the name and the three numbers; no material is set and both
        material names are empty. */
    constructor(name: string, capacity: int32, fixedCost: int32, proportionalCost: int32)
      ensures View() == UnitData(name, capacity, fixedCost, proportionalCost, "", "")
      ensures inputMaterial == null && outputMaterial == null
      ensures FlowLine(View()) == name + ":  => "
    {
      this.inputMaterial := null;
      this.outputMaterial := null;
      this.name := name;
      this.capacity := capacity;
      this.fixedCost := fixedCost;
      this.proportionalCost := proportionalCost;
      this.inputMaterialName := "";
      this.outputMaterialName := "";
    }

    /** Sets the input reference and records its name; nothing else changes. */
    method SetInputMaterial(m: Material)
      modifies this`inputMaterial, this`inputMaterialName
      ensures inputMaterial == m && inputMaterialName == m.name
    {
      inputMaterial := m;
      inputMaterialName := m.name;
    }

    /** Sets the output reference and records its name; nothing else changes. */
    method SetOutputMaterial(m: Material)
      modifies this`outputMaterial, this`outputMaterialName
      ensures outputMaterial == m && outputMaterialName == m.name
    {
      outputMaterial := m;
      outputMaterialName := m.name;
    }

    function View(): UnitData
      reads this
    {
      UnitData(name, capacity, fixedCost, proportionalCost, inputMaterialName, outputMaterialName)
    }
  }
}
