/** The state of one model variable as a node records it: its name, its value and
    the value it had before the branching step that pinned it. A value: there are no
    setters, so a state never changes once built. */
module VariableStates {

  datatype VariableState = VariableState(name: string, value: real, previousValue: real)
  {
    /** The no-argument constructor: empty name, value and previous value -1. */
    static function Default(): (s: VariableState)
      ensures s.name == "" && s.value == -1.0 && s.previousValue == -1.0
    {
      VariableState("", -1.0, -1.0)
    }

    /** The name-only constructor, chained through the default one. */
    static function Named(name: string): (s: VariableState)
      ensures s.name == name && s.value == -1.0 && s.previousValue == -1.0
    {
      Default().(name := name)
    }

    /** The name-and-value constructor, chained through the name-only one: the
        previous value stays -1, as in every snapshot a solved node stores. */
    static function WithValue(name: string, value: real): (s: VariableState)
      ensures s.name == name && s.value == value && s.previousValue == -1.0
    {
      Named(name).(value := value)
    }

    /** The three-argument constructor, chained through the two-argument one. */
    static function Create(name: string, value: real, previousValue: real): (s: VariableState)
      ensures s.name == name && s.value == value && s.previousValue == previousValue
    {
      WithValue(name, value).(previousValue := previousValue)
    }
  }
}
