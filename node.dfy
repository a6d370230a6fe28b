/** A node of the branch-and-bound tree: its depth, its two children and the status
    of the model solved there. */
module Nodes {
  import opened Wrappers
  import opened Java
  import SolutionStatuses

  class Node {
    var level: int
    var left: Node?
    var right: Node?
    /** Assigned once, by the constructor. */
    const solutionStatus: SolutionStatuses.SolutionStatus

    /** A new node has no children, level 0 and a fresh status with objective
        +infinity, no variables, no changed variable, feasible and not best. */
    constructor()
      ensures level == 0 && left == null && right == null
      ensures fresh(solutionStatus)
      ensures solutionStatus.value == PositiveInfinity
      ensures solutionStatus.variables == None && solutionStatus.changed == None
      ensures solutionStatus.feasible && !solutionStatus.best
    {
      level := 0;  // the default value of an int field
      left := null;
      right := null;
      solutionStatus := new SolutionStatuses.SolutionStatus(PositiveInfinity, None, None);
    }

    method SetLeft(left: Node?)
      modifies this`left
      ensures this.left == left
    {
      this.left := left;
    }

    method SetRight(right: Node?)
      modifies this`right
      ensures this.right == right
    {
      this.right := right;
    }

    method SetLevel(level: int)
      modifies this`level
      ensures this.level == level
    {
      this.level := level;
    }

    /** Forwards to the status's feasible flag and touches nothing else. */
    method SetFeasible(feasible: bool)
      modifies solutionStatus`feasible
      ensures solutionStatus.feasible == feasible
    {
      solutionStatus.SetFeasible(feasible);
    }

    /** Forwards to the status's best flag and touches nothing else. */
    method SetBest(best: bool)
      modifies solutionStatus`best
      ensures solutionStatus.best == best
    {
      solutionStatus.SetBest(best);
    }
  }
}
