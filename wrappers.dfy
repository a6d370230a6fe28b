/** Option and Result, and the ways the text format can be rejected. */
module Wrappers {

  datatype Option<+T> = None | Some(value: T)

  datatype Result<+T, +E> = Ok(value: T) | Err(error: E)

  /** Why a problem definition is rejected. Every kind but IndexOutOfBounds is an
      IllegalArgumentException in the source (the message text is not modelled);
      IndexOutOfBounds is the ArrayIndexOutOfBoundsException that escapes when a
      numeric field of an operating unit has nothing after '='. */
  datatype Failure =
    | InvalidType            // Material.Type.fromString: no type matches
    | InvalidMaterialLine    // material line does not split into name and data
    | InvalidMaterialData    // material data has fewer than 1 or more than 2 fields
    | InvalidLowerBound      // flow_rate_lower_bound field malformed
    | InvalidUnitLine        // operating unit line does not split into name and data
    | InvalidUnitData        // operating unit data is not exactly 3 fields, or a value is not an int
    | IndexOutOfBounds       // a unit field has no value after '='
    | InvalidFlowLine        // flow line does not split into unit and flow
    | InvalidFlowData        // flow does not split into input and output at "=>"
    | UnitNotFound           // flow names an operating unit that was not declared
    | MaterialNotFound       // flow names a material that was not declared
}
