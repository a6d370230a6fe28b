/** What the search learned at one node of the branch-and-bound tree. */
module SolutionStatuses {
  import opened Wrappers
  import opened Java
  import opened VariableStates

  class SolutionStatus {
    /** The objective value; +infinity until a solve succeeds. */
    var value: ExtReal
    var feasible: bool
    var best: bool
    /** The branching step that led here (null in the source when absent). */
    var changed: Option<VariableState>
    /** The solution values (null in the source when absent). */
    var variables: Option<set<VariableState>>

    /** Stores its three arguments; a new status is feasible and not best. */
    constructor(value: ExtReal, variables: Option<set<VariableState>>, changed: Option<VariableState>)
      ensures this.value == value && this.variables == variables && this.changed == changed
      ensures feasible && !best
    {
      this.value := value;
      this.variables := variables;
      this.changed := changed;
      this.feasible := true;
      this.best := false;
    }

    method SetFeasible(feasible: bool)
      modifies this`feasible
      ensures this.feasible == feasible
    {
      this.feasible := feasible;
    }

    method SetBest(best: bool)
      modifies this`best
      ensures this.best == best
    {
      this.best := best;
    }

    method SetVariables(variables: Option<set<VariableState>>)
      modifies this`variables
      ensures this.variables == variables
    {
      this.variables := variables;
    }

    method SetChanged(changed: Option<VariableState>)
      modifies this`changed
      ensures this.changed == changed
    {
      this.changed := changed;
    }

    method SetValue(value: ExtReal)
      modifies this`value
      ensures this.value == value
    {
      this.value := value;
    }
  }
}
