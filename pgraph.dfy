/** The branch-and-bound engine. Each call builds a linear model from the units and
    an override array, hands it to the solver, and either stops (infeasible, or every
    value whole) or branches on the first fractional value, pinning it to the floor
    on the left and to the floor plus one on the right. Whole solutions compete for
    the best node. */
module Engine {
  import opened Wrappers
  import opened Java
  import opened VariableStates
  import opened SolutionStatuses
  import opened Nodes
  import opened Materials
  import opened OperatingUnits
  import opened LinearModels

  // ---------------------------------------------------------------------------
  // The solver, seen from outside

  /** What a solve reports: infeasible, or an objective value and one value per
      variable in declaration order. */
  datatype SolveResult = Infeasible | Solved(objective: real, values: seq<real>)

  predicate AtLeast(lower: ExtReal, x: real) {
    match lower
    case NegativeInfinity => true
    case Finite(r) => r <= x
    case PositiveInfinity => false
  }

  predicate AtMost(upper: ExtReal, x: real) {
    match upper
    case NegativeInfinity => false
    case Finite(r) => x <= r
    case PositiveInfinity => true
  }

  /** What the engine needs from a solver: a solution gives every variable a value
      within that variable's bounds. Integrality is not required; the LP solver the
      source uses ignores it. */
  predicate Honours(m: LpModel, r: SolveResult) {
    r.Solved? ==>
      && |r.values| == |m.variables|
      && forall k :: 0 <= k < |r.values| ==>
           AtLeast(m.variables[k].lower, r.values[k]) && AtMost(m.variables[k].upper, r.values[k])
  }

  /** What a solve of the model for an override array reports about the count
      slots: one value per slot, and a pinned slot comes back as its pin. */
  predicate Respects(fixedValues: Option<seq<int>>, count: nat, r: SolveResult) {
    r.Solved? ==>
      && |r.values| == count
      && (fixedValues.Some? && |fixedValues.value| == count ==>
            forall k :: 0 <= k < count && Pinned(fixedValues.value[k]) ==> r.values[k] == fixedValues.value[k] as real)
  }

  /** A result within the bounds of the model's variables respects the pins. */
  lemma HonoursRespects(net: Network, fixedValues: Option<seq<int>>, r: SolveResult)
    requires Closed(net) && Honours(ModelOf(net, fixedValues), r)
    ensures Respects(fixedValues, 2 * |net.units|, r)
  {
    if r.Solved? && fixedValues.Some? && |fixedValues.value| == 2 * |net.units| {
      forall k | 0 <= k < 2 * |net.units| && Pinned(fixedValues.value[k])
        ensures r.values[k] == fixedValues.value[k] as real
      {
        OverridesOnlyPin(net, fixedValues.value, k);
      }
    }
  }

  /** The solver honours every model built for the network. */
  ghost predicate SolverContract(solve: LpModel -> SolveResult, net: Network)
    requires Closed(net)
  {
    forall fixedValues :: Honoured(solve, net, fixedValues)
  }

  /** The solver honours the model built for one override array. */
  ghost predicate Honoured(solve: LpModel -> SolveResult, net: Network, fixedValues: Option<seq<int>>)
    requires Closed(net)
  {
    Honours(ModelOf(net, fixedValues), solve(ModelOf(net, fixedValues)))
  }

  // ---------------------------------------------------------------------------
  // Choosing the variable to branch on

  /** The test `v % 1 == 0` on a solution value. */
  predicate IsInteger(v: real) {
    v.Floor as real == v
  }

  /** The least index whose value is not whole, or -1 when every value is whole. */
  function FirstNonInteger(values: seq<real>): (index: int)
    ensures -1 <= index < |values|
    ensures index == -1 <==> forall j :: 0 <= j < |values| ==> IsInteger(values[j])
    ensures index >= 0 ==> !IsInteger(values[index]) && forall j :: 0 <= j < index ==> IsInteger(values[j])
  {
    if values == [] then -1
    else if !IsInteger(values[0]) then 0
    else
      var rest := FirstNonInteger(values[1..]);
      if rest == -1 then -1 else rest + 1
  }

  /** getNonInteger: scans the values in declaration order, X variables included. */
  method GetNonInteger(values: seq<real>) returns (index: int)
    ensures index == FirstNonInteger(values)
  {
    index := 0;
    while index < |values|
      invariant 0 <= index <= |values|
      invariant forall j :: 0 <= j < index ==> IsInteger(values[j])
    {
      if !IsInteger(values[index]) {
        return;
      }
      index := index + 1;
    }
    index := -1;
  }

  /** The left child's pin: the absolute value of the floor. */
  function LeftPin(v: real): int {
    Abs(v.Floor)
  }

  /** The right child's pin: one more than the left child's. */
  function RightPin(v: real): int {
    LeftPin(v) + 1
  }

  // ---------------------------------------------------------------------------
  // Override arrays

  /** The contents of an override array; None for the root's null array. */
  function Contents(a: array?<int>): Option<seq<int>>
    reads a
  {
    if a == null then None else Some(a[..])
  }

  /** The array a branch copies: the node's own, or a fresh one with every slot
      unpinned at the root. */
  function Base(fixedValues: Option<seq<int>>, count: nat): seq<int> {
    if fixedValues.Some? then fixedValues.value else seq(count, _ => IntMin as int)
  }

  function Pins(s: seq<int>): nat {
    if s == [] then 0 else Pins(s[..|s| - 1]) + (if Pinned(s[|s| - 1]) then 1 else 0)
  }

  function PinCount(fixedValues: Option<seq<int>>): nat {
    if fixedValues.None? then 0 else Pins(fixedValues.value)
  }

  lemma {:induction false} PinsBound(s: seq<int>)
    ensures Pins(s) <= |s|
  {
    if s != [] {
      PinsBound(s[..|s| - 1]);
    }
  }

  lemma {:induction false} PinsNone(count: nat)
    ensures Pins(seq(count, _ => IntMin as int)) == 0
  {
    if count > 0 {
      assert seq(count, _ => IntMin as int)[..count - 1] == seq(count - 1, _ => IntMin as int);
      PinsNone(count - 1);
    }
  }

  /** Pinning a slot that was free pins exactly one more slot. */
  lemma {:induction false} PinsUpdate(s: seq<int>, k: nat, pin: int)
    requires k < |s| && !Pinned(s[k]) && Pinned(pin)
    ensures Pins(s[k := pin]) == Pins(s) + 1
    decreases |s|
  {
    var t := s[k := pin];
    if k < |s| - 1 {
      assert t[..|t| - 1] == s[..|s| - 1][k := pin];
      PinsUpdate(s[..|s| - 1], k, pin);
    } else {
      assert t[..|t| - 1] == s[..|s| - 1];
    }
  }

  /** The solution snapshot a solved node stores: one state per variable, with its
      name and value and previous value -1. */
  function Snapshot(values: seq<real>): set<VariableState> {
    SnapshotUpTo(values, |values|)
  }

  function SnapshotUpTo(values: seq<real>, count: nat): set<VariableState>
    requires count <= |values|
  {
    if count == 0 then {}
    else SnapshotUpTo(values, count - 1) + {VariableState.WithValue(VariableName(count - 1), values[count - 1])}
  }

  lemma {:induction false} SnapshotMembers(values: seq<real>, count: nat, s: VariableState)
    requires count <= |values|
    ensures s in SnapshotUpTo(values, count) <==>
      exists k :: 0 <= k < count && s == VariableState(VariableName(k), values[k], -1.0)
  {
    if count > 0 {
      SnapshotMembers(values, count - 1, s);
    }
  }

  /** The loop of branchAndBound that collects one state per solved variable. */
  method TakeSnapshot(variables: seq<Variable>, values: seq<real>) returns (current: set<VariableState>)
    requires |values| <= |variables|
    requires forall k :: 0 <= k < |values| ==> variables[k].name == VariableName(k)
    ensures current == Snapshot(values)
  {
    current := {};
    for k := 0 to |values|
      invariant current == SnapshotUpTo(values, k)
    {
      current := current + {VariableState.WithValue(variables[k].name, values[k])};
    }
  }

  // ---------------------------------------------------------------------------
  // What the engine reads from the units

  predicate HasOutputs(units: seq<OperatingUnit>)
    reads units`outputMaterial
  {
    forall i :: 0 <= i < |units| ==> units[i].outputMaterial != null
  }

  function OutputMaterials(units: seq<OperatingUnit>): set<Material>
    reads units`outputMaterial
  {
    set i | 0 <= i < |units| && units[i].outputMaterial != null :: units[i].outputMaterial as Material
  }

  function Spec(u: OperatingUnit): UnitSpec
    requires u.outputMaterial != null
    reads u`inputMaterial, u`outputMaterial
  {
    UnitSpec(u.capacity, u.fixedCost, u.proportionalCost, u.inputMaterial, u.outputMaterial)
  }

  function Specs(units: seq<OperatingUnit>): (r: seq<UnitSpec>)
    requires HasOutputs(units)
    reads units`inputMaterial, units`outputMaterial
    ensures |r| == |units| && forall i :: 0 <= i < |units| ==> r[i] == Spec(units[i])
  {
    if units == [] then [] else [Spec(units[0])] + Specs(units[1..])
  }

  function NetworkOf(units: seq<OperatingUnit>): (net: Network)
    requires HasOutputs(units)
    reads units`inputMaterial, units`outputMaterial, OutputMaterials(units)`lowerBound
    ensures Closed(net)
  {
    var net := Network(Specs(units), map m | m in OutputMaterials(units) :: m.lowerBound);
    assert forall i :: 0 <= i < |units| ==> units[i].outputMaterial in OutputMaterials(units);
    net
  }

  // ---------------------------------------------------------------------------
  // The engine

  /** The arguments a node was built with. */
  datatype Call = Call(fixedValues: Option<seq<int>>, changed: Option<VariableState>)

  /** The call that builds a child: the parent's array (all slots unpinned at the
      root) with slot k set to the pin, and the changed variable (name, pin, value). */
  function ChildCall(fixedValues: Option<seq<int>>, name: string, values: seq<real>, k: nat, pin: int): Call
    requires k < |Base(fixedValues, |values|)| && k < |values|
  {
    Call(Some(Base(fixedValues, |values|)[k := pin]), Some(VariableState.Create(name, pin as real, values[k])))
  }

  /** Pinning a free slot of the array a branch copies pins one slot more, and never
      more slots than there are. */
  lemma ChildPins(fixedValues: Option<seq<int>>, count: nat, k: nat, pin: int)
    requires fixedValues.Some? ==> |fixedValues.value| == count
    requires k < count && !Pinned(Base(fixedValues, count)[k]) && Pinned(pin)
    ensures PinCount(Some(Base(fixedValues, count)[k := pin])) == PinCount(fixedValues) + 1 <= count
  {
    var base := Base(fixedValues, count);
    if fixedValues.None? {
      PinsNone(count);
    }
    PinsUpdate(base, k, pin);
    PinsBound(base[k := pin]);
  }

  /** Arrays.copyOf of a whole override array, then slot k set to the pin. */
  method CopyWithPin(source: array<int>, k: nat, pin: int) returns (copy: array<int>)
    requires k < source.Length
    ensures fresh(copy) && copy[..] == source[..][k := pin]
  {
    copy := new int[source.Length](i requires 0 <= i < source.Length reads source => source[i]);
    copy[k] := pin;
  }

  /** The two override arrays of a branch: copies of the node's array, or of a fresh
      one with every slot unpinned at the root, with slot k pinned to each child's
      value. */
  method ChildArrays(fixedValues: array?<int>, count: nat, k: nat, leftPin: int, rightPin: int)
    returns (left: array<int>, right: array<int>)
    requires fixedValues != null ==> fixedValues.Length == count
    requires k < count && !Pinned(Base(Contents(fixedValues), count)[k]) && Pinned(leftPin) && Pinned(rightPin)
    ensures fresh(left) && fresh(right)
    ensures left[..] == Base(Contents(fixedValues), count)[k := leftPin]
    ensures right[..] == Base(Contents(fixedValues), count)[k := rightPin]
    ensures PinCount(Contents(left)) == PinCount(Contents(fixedValues)) + 1 <= count
    ensures PinCount(Contents(right)) == PinCount(Contents(fixedValues)) + 1 <= count
  {
    ChildPins(Contents(fixedValues), count, k, leftPin);
    ChildPins(Contents(fixedValues), count, k, rightPin);
    var fixed := fixedValues;
    if fixed == null {
      fixed := new int[count](_ => IntMin as int);
    }
    assert fixed[..] == Base(Contents(fixedValues), count);
    left := CopyWithPin(fixed, k, leftPin);
    right := CopyWithPin(fixed, k, rightPin);
  }

  /** Position index holds the first of the least objectives found. */
  ghost predicate FirstLeast(objectives: seq<real>, index: nat) {
    && index < |objectives|
    && forall j :: 0 <= j < |objectives| ==>
         && objectives[index] <= objectives[j]
         && (j < index ==> objectives[index] < objectives[j])
  }

  /** The first least objective is one position: ties go to the earliest. */
  lemma FirstLeastUnique(objectives: seq<real>, i: nat, j: nat)
    requires FirstLeast(objectives, i) && FirstLeast(objectives, j)
    ensures i == j
  {
    assert objectives[i] <= objectives[j] && objectives[j] <= objectives[i];
  }

  /** Appending an objective moves the first least position to it exactly when
      there is none yet or it is strictly below the least so far. */
  lemma {:induction false} FirstLeastAppend(objectives: seq<real>, index: nat, objective: real)
    requires objectives == [] || FirstLeast(objectives, index)
    ensures objectives == [] || objective < objectives[index] ==> FirstLeast(objectives + [objective], |objectives|)
    ensures objectives != [] && objectives[index] <= objective ==> FirstLeast(objectives + [objective], index)
  {
    var all := objectives + [objective];
    if objectives == [] || objective < objectives[index] {
      forall j | 0 <= j < |all|
        ensures objective <= all[j] && (j < |objectives| ==> objective < all[j])
      {
        if j < |objectives| {
          assert all[j] == objectives[j];
          assert objectives[index] <= objectives[j];
        }
      }
    } else {
      forall j | 0 <= j < |all|
        ensures all[index] <= all[j] && (j < index ==> all[index] < all[j])
      {
        if j < |objectives| {
          assert all[j] == objectives[j];
        }
      }
    }
  }

  /** The parts of a status a solve sets. */
  datatype StatusView = StatusView(value: ExtReal, feasible: bool, changed: Option<VariableState>,
                                   variables: Option<set<VariableState>>)

  function View(status: SolutionStatus): StatusView
    reads status`value, status`feasible, status`changed, status`variables
  {
    StatusView(status.value, status.feasible, status.changed, status.variables)
  }

  /** A node where the search stopped on a whole solution: solved, so feasible with
      a finite objective, and without children. */
  predicate WholeLeaf(n: Node)
    reads n`left, n`right, n.solutionStatus`feasible, n.solutionStatus`value
  {
    n.left == null && n.right == null && n.solutionStatus.feasible && n.solutionStatus.value.Finite?
  }

  /** The objectives of the whole leaves among the nodes, in their order. */
  function WholeObjectives(nodes: seq<Node>): seq<real>
    reads set n | n in nodes :: n
    reads (set n | n in nodes :: n.solutionStatus)`feasible, (set n | n in nodes :: n.solutionStatus)`value
    decreases |nodes|
  {
    if nodes == [] then []
    else
      var head := nodes[0];
      assert head in nodes && forall n :: n in nodes[1..] ==> n in nodes;
      (if WholeLeaf(head) then [head.solutionStatus.value.r] else []) + WholeObjectives(nodes[1..])
  }

  /** The whole leaves of two runs of nodes are those of the first, then those of
      the second. */
  lemma {:induction false} WholeObjectivesAppend(a: seq<Node>, b: seq<Node>)
    ensures WholeObjectives(a + b) == WholeObjectives(a) + WholeObjectives(b)
  {
    if a == [] {
      assert a + b == b;
    } else {
      assert (a + b)[1..] == a[1..] + b;
      WholeObjectivesAppend(a[1..], b);
    }
  }

  /** Every child of a listed node is listed too. */
  ghost predicate ChildrenListed(nodes: seq<Node>)
    reads set n | n in nodes :: n
  {
    forall n :: n in nodes ==> (n.left != null ==> n.left in nodes) && (n.right != null ==> n.right in nodes)
  }

  /** A heap change that keeps the shape and the recorded objective of every
      listed node keeps their whole solutions, and keeps their children listed. */
  twostate lemma {:induction false} LeavesKept(nodes: seq<Node>)
    requires forall n :: n in nodes ==>
      && n.left == old(n.left) && n.right == old(n.right)
      && n.solutionStatus.feasible == old(n.solutionStatus.feasible)
      && n.solutionStatus.value == old(n.solutionStatus.value)
    ensures WholeObjectives(nodes) == old(WholeObjectives(nodes))
    ensures ChildrenListed(nodes) == old(ChildrenListed(nodes))
    decreases |nodes|
  {
    if nodes != [] {
      LeavesKept(nodes[1..]);
    }
  }

  /** What a solve leaves in a node's status: an infeasible model marks the node
      infeasible and records the change that led to it; a solved one records the
      objective and the values, and no change. */
  function Recorded(result: SolveResult, changed: Option<VariableState>): StatusView {
    if result.Infeasible? then StatusView(PositiveInfinity, false, changed, None)
    else StatusView(Finite(result.objective), true, None, Some(Snapshot(result.values)))
  }

  /** The part of branchAndBound that records a solve in a new node's status. */
  method RecordSolve(node: Node, model: LpModel, result: SolveResult, lastChanged: Option<VariableState>)
    requires View(node.solutionStatus) == StatusView(PositiveInfinity, true, None, None)
    requires result.Solved? ==> |result.values| == |model.variables|
    requires result.Solved? ==> forall k :: 0 <= k < |result.values| ==> model.variables[k].name == VariableName(k)
    modifies node.solutionStatus`feasible, node.solutionStatus`changed
    modifies node.solutionStatus`value, node.solutionStatus`variables
    ensures View(node.solutionStatus) == Recorded(result, lastChanged)
  {
    if result.Infeasible? {
      node.SetFeasible(false);
      node.solutionStatus.SetChanged(lastChanged);
    } else {
      node.solutionStatus.SetValue(Finite(result.objective));
      var currentVariables := TakeSnapshot(model.variables, result.values);
      node.solutionStatus.SetVariables(Some(currentVariables));
    }
  }

  /** A new node one level below its parent, or at level 1 for the root. */
  method NewNode(parent: Node?) returns (node: Node)
    ensures fresh(node) && fresh(node.solutionStatus)
    ensures node.level == if parent == null then 1 else parent.level + 1
    ensures node.left == null && node.right == null
    ensures node.solutionStatus.value == PositiveInfinity && node.solutionStatus.variables == None
    ensures node.solutionStatus.feasible && node.solutionStatus.changed == None && !node.solutionStatus.best
  {
    node := new Node();
    if parent == null {
      node.SetLevel(1);
    } else {
      node.SetLevel(parent.level + 1);
    }
  }

  class PGraph {
    const units: seq<OperatingUnit>
    /** The solver, an oracle from models to results. */
    const solve: LpModel -> SolveResult
    /** What the engine reads from the units. */
    ghost const network: Network
    /** What the solver reports for the model of each override array. */
    ghost const outcome: Option<seq<int>> -> SolveResult
    /** The output materials of the units, whose lower bounds the model reads. */
    ghost const materials: set<Material>

    var root: Node?
    var bestNode: Node?

    /** Every whole solution found so far, in the order found. */
    ghost var leaves: seq<real>
    /** The position of the best node among the leaves. */
    ghost var bestIndex: nat
    /** The nodes created so far, in creation order. */
    ghost var tree: seq<Node>
    /** The node each created status belongs to. */
    ghost var owner: map<SolutionStatus, Node>

    /** The network is what the engine reads from the units. */
    ghost predicate Wired()
      reads units`inputMaterial, units`outputMaterial, materials`lowerBound
    {
      && HasOutputs(units)
      && (forall i :: 0 <= i < |units| ==> units[i].outputMaterial in materials)
      && Closed(network)
      && |network.units| == |units|
      && (forall i :: 0 <= i < |units| ==> network.units[i] == Spec(units[i]))
      && (forall i :: 0 <= i < |units| ==>
            network.lowerBound[units[i].outputMaterial] == units[i].outputMaterial.lowerBound)
    }

    /** outcome is the solver applied to the model of each override array. */
    ghost predicate Outcomes() {
      && Closed(network)
      && forall fixedValues {:trigger ModelOf(network, fixedValues)} ::
           outcome(fixedValues) == solve(ModelOf(network, fixedValues))
    }

    /** Every outcome respects the pins of its override array. */
    ghost predicate Solves() {
      forall fixedValues {:trigger outcome(fixedValues)} :: Respects(fixedValues, 2 * |network.units|, outcome(fixedValues))
    }

    ghost predicate Fits(fixedValues: Option<seq<int>>) {
      fixedValues.Some? ==> |fixedValues.value| == 2 * |network.units|
    }

    /** The best node is a created whole leaf and holds the first whole solution
        with the least objective; every created node has a status of its own, and
        the best node's is the only one flagged. */
    ghost predicate Valid()
      reads this`bestNode, this`leaves, this`bestIndex, this`tree, this`owner, owner.Keys`best
      reads (if bestNode != null then {bestNode} else {})`left, (if bestNode != null then {bestNode} else {})`right
      reads (if bestNode != null then {bestNode.solutionStatus} else {})`value
      reads (if bestNode != null then {bestNode.solutionStatus} else {})`feasible
    {
      && (bestNode == null <==> leaves == [])
      && (bestNode != null ==>
            && FirstLeast(leaves, bestIndex)
            && WholeLeaf(bestNode)
            && bestNode in tree
            && bestNode.solutionStatus.value == Finite(leaves[bestIndex]))
      && (forall n :: n in tree ==> n.solutionStatus in owner && owner[n.solutionStatus] == n)
      && forall s :: s in owner ==> (s.best <==> bestNode != null && s == bestNode.solutionStatus)
    }

    /** At most one created node carries the best flag, and it is the best node. */
    lemma OneBest()
      requires Valid()
      ensures forall a, b :: a in tree && b in tree && a.solutionStatus.best && b.solutionStatus.best ==> a == b
      ensures forall n :: n in tree ==> (n.solutionStatus.best <==> n == bestNode)
    {
    }

    /** One call added its nodes to the tree, in creation order, with every child of
        an added node among them, and the whole solutions among them to the leaves,
        in the same order. */
    ghost predicate Grew(oldTree: seq<Node>, oldLeaves: seq<real>, nodes: seq<Node>, found: seq<real>)
      reads this`tree, this`leaves, set n | n in nodes :: n
      reads (set n | n in nodes :: n.solutionStatus)`feasible, (set n | n in nodes :: n.solutionStatus)`value
    {
      && tree == oldTree + nodes
      && ChildrenListed(nodes)
      && leaves == oldLeaves + found
      && found == WholeObjectives(nodes)
    }

    /** A node added on its own, without children: a whole leaf adds its objective,
        any other node none. */
    lemma GrewOne(oldTree: seq<Node>, oldLeaves: seq<real>, node: Node, found: seq<real>)
      requires tree == oldTree + [node] && node.left == null && node.right == null
      requires found == if WholeLeaf(node) then [node.solutionStatus.value.r] else []
      requires leaves == oldLeaves + found
      ensures Grew(oldTree, oldLeaves, [node], found)
    {
      assert [node][1..] == [];
    }

    /** A branching node added before its subtree, which holds both its children. */
    lemma GrewAbove(oldTree: seq<Node>, oldLeaves: seq<real>, node: Node, below: seq<Node>, found: seq<real>)
      requires Grew(oldTree + [node], oldLeaves, below, found)
      requires node.left != null && node.left in below && node.right != null && node.right in below
      ensures Grew(oldTree, oldLeaves, [node] + below, found)
    {
      assert ([node] + below)[1..] == below;
      assert oldTree + [node] + below == oldTree + ([node] + below);
    }

    /** The left subtree's nodes and whole solutions, then the right one's. */
    lemma GrewBoth(oldTree: seq<Node>, oldLeaves: seq<real>, leftNodes: seq<Node>, leftFound: seq<real>,
                   rightNodes: seq<Node>, rightFound: seq<real>)
      requires Grew(oldTree + leftNodes, oldLeaves + leftFound, rightNodes, rightFound)
      requires leftFound == WholeObjectives(leftNodes) && ChildrenListed(leftNodes)
      ensures Grew(oldTree, oldLeaves, leftNodes + rightNodes, leftFound + rightFound)
    {
      WholeObjectivesAppend(leftNodes, rightNodes);
      AppendAssoc(oldTree, leftNodes, rightNodes);
      AppendAssoc(oldLeaves, leftFound, rightFound);
    }

    /** The solver respects the pins: a solution has one value per variable and a
        pinned slot comes back as its pin. */
    lemma PinnedComesBack(fixedValues: Option<seq<int>>, k: nat)
      requires Solves() && Fits(fixedValues) && outcome(fixedValues).Solved?
      ensures |outcome(fixedValues).values| == 2 * |network.units|
      ensures fixedValues.Some? && k < |fixedValues.value| && Pinned(fixedValues.value[k]) ==>
        outcome(fixedValues).values[k] == fixedValues.value[k] as real
    {
      assert Respects(fixedValues, 2 * |network.units|, outcome(fixedValues));
    }

    /** The slot chosen for branching is one that is not pinned yet: a pinned slot
        comes back whole. */
    lemma BranchSlotFree(fixedValues: Option<seq<int>>, k: nat)
      requires Solves() && Fits(fixedValues) && outcome(fixedValues).Solved?
      requires FirstNonInteger(outcome(fixedValues).values) == k
      ensures k < 2 * |network.units| == |Base(fixedValues, 2 * |network.units|)|
      ensures !Pinned(Base(fixedValues, 2 * |network.units|)[k])
    {
      PinnedComesBack(fixedValues, k);
      if fixedValues.Some? {
        var p := fixedValues.value[k];
        assert IsInteger(p as real);
      }
    }

    lemma NetworkWired()
      requires HasOutputs(units) && network == NetworkOf(units) && materials == OutputMaterials(units)
      ensures Wired()
    {
      forall i | 0 <= i < |units|
        ensures units[i].outputMaterial in OutputMaterials(units)
      {
      }
    }

    /** A solver that keeps within the bounds of every model respects every pin. */
    lemma SolvesFromContract()
      requires Outcomes() && SolverContract(solve, network)
      ensures Solves()
    {
      forall fixedValues
        ensures Respects(fixedValues, 2 * |network.units|, outcome(fixedValues))
      {
        assert Honoured(solve, network, fixedValues);
        HonoursRespects(network, fixedValues, outcome(fixedValues));
      }
    }

    /** Builds the whole tree: the root is the node solved without overrides, and
        every whole solution lies in its subtree. */
    constructor(units: seq<OperatingUnit>, solve: LpModel -> SolveResult)
      requires HasOutputs(units) && SolverContract(solve, NetworkOf(units))
      ensures this.units == units && this.solve == solve && network == old(NetworkOf(units)) && Outcomes()
      ensures Valid()
      ensures root != null && root.level == 1 && View(root.solutionStatus) == Expected(Call(None, None))
      // the created nodes, in creation order, start with the root and hold every
      // child of every created node
      ensures tree != [] && tree[0] == root && ChildrenListed(tree)
      // the solutions that competed for the best node are the objectives of the
      // whole leaves among them, in that order; the best node is a whole leaf
      // holding the first least of them
      ensures leaves == WholeObjectives(tree)
      ensures bestNode != null ==> WholeLeaf(bestNode) && bestNode.solutionStatus.value == Finite(leaves[bestIndex])
      ensures outcome(None).Infeasible? ==> bestNode == null
      ensures outcome(None).Solved? && FirstNonInteger(outcome(None).values) < 0 ==> bestNode == root
      ensures outcome(None).Solved? && FirstNonInteger(outcome(None).values) >= 0 ==>
        bestNode != root
    {
      var net := NetworkOf(units);
      this.units := units;
      this.solve := solve;
      this.network := net;
      this.outcome := fixedValues => solve(ModelOf(net, fixedValues));
      this.materials := OutputMaterials(units);
      root := null;
      bestNode := null;
      leaves := [];
      bestIndex := 0;
      tree := [];
      owner := map[];
      new;
      NetworkWired();
      SolvesFromContract();
      Build();
    }

    /** build: the root is the node branchAndBound builds without overrides, parent
        or change, and the whole tree hangs below it. */
    method Build()
      requires Valid() && Wired() && Outcomes() && Solves() && tree == [] && leaves == [] && bestNode == null
      modifies this
      ensures Valid()
      ensures root != null && root.level == 1 && View(root.solutionStatus) == Expected(Call(None, None))
      ensures tree != [] && tree[0] == root && ChildrenListed(tree)
      ensures leaves == WholeObjectives(tree)
      ensures outcome(None).Infeasible? ==> bestNode == null
      ensures outcome(None).Solved? && FirstNonInteger(outcome(None).values) < 0 ==> bestNode == root
      ensures outcome(None).Solved? && FirstNonInteger(outcome(None).values) >= 0 ==>
        bestNode != root
    {
      ghost var nodes, found;
      root, nodes, found := BranchAndBound(null, null, None, None);
      assert tree == nodes;
    }

    /** getSolver: the model for the given override array. */
    method GetSolver(fixedValues: array?<int>) returns (model: LpModel)
      requires Wired()
      ensures model == ModelOf(network, Contents(fixedValues))
    {
      var variables, objective, unitRows := UnitColumns();
      var materialMap := CollectEnds();
      var balanceRows := BuildBalanceRows(materialMap);
      var vars := variables;
      if fixedValues != null {
        vars := FixVariables(variables, fixedValues);
      }
      model := LpModel(vars, objective, unitRows, balanceRows);
    }

    /** Builds the model for the override array and solves it. */
    method Solve(fixedValues: array?<int>, ghost overrides: Option<seq<int>>) returns (model: LpModel, result: SolveResult)
      requires Wired() && Outcomes() && overrides == Contents(fixedValues)
      ensures result == outcome(overrides)
      ensures |model.variables| == 2 * |network.units|
      ensures forall k :: 0 <= k < 2 * |network.units| ==> model.variables[k].name == VariableName(k)
    {
      model := GetSolver(fixedValues);
      result := solve(model);
      ModelNames(network, overrides);
    }

    /** The two variables, two objective coefficients and three rows of every unit. */
    method UnitColumns() returns (variables: seq<Variable>, objective: seq<real>, unitRows: seq<Row>)
      requires Wired()
      ensures variables == Variables(network) && objective == Objective(network) && unitRows == UnitRows(network)
    {
      var n := |units|;
      variables := [];
      objective := [];
      unitRows := [];
      for i := 0 to n
        invariant ColumnsUpTo(network, i, variables, objective, unitRows)
      {
        ColumnsStep(network, i, variables, objective, unitRows);
        var unit := units[i];
        assert network.units[i] == Spec(unit);
        var x := Variable(VariableName(2 * i), Finite(0.0), PositiveInfinity, false);
        var y := Variable(VariableName(2 * i + 1), Finite(0.0), Finite(1.0), true);
        var xPositive := Row(Finite(0.0), PositiveInfinity, map[2 * i := 1.0]);
        var yPositive := Row(Finite(0.0), Finite(1.0), map[2 * i + 1 := 1.0]);
        var capacityRow := Row(NegativeInfinity, Finite(0.0), map[2 * i := 1.0, 2 * i + 1 := Negate(unit.capacity) as real]);
        UnitColumnsAt(network.units[i], i);
        variables := variables + [x, y];
        objective := objective + [unit.proportionalCost as real, unit.fixedCost as real];
        unitRows := unitRows + [xPositive, yPositive, capacityRow];
      }
      ColumnsDone(network, variables, objective, unitRows);
    }

    /** The producers (origins) and consumers (destinations) of every material a unit
        touches, keyed by the material object, a null input included. */
    method CollectEnds() returns (materialMap: map<Material?, Ends>)
      requires Wired()
      ensures EndsUpTo(network, materialMap, |units|)
    {
      materialMap := map[];
      for index := 0 to |units|
        invariant EndsUpTo(network, materialMap, index)
      {
        var unit := units[index];
        assert network.units[index] == Spec(unit);
        var input := unit.inputMaterial;
        var output := unit.outputMaterial;
        var before := materialMap;
        if input !in materialMap {
          materialMap := materialMap[input := Ends([], [])];
        }
        if output !in materialMap {
          materialMap := materialMap[output := Ends([], [])];
        }
        var consumed := materialMap[input];
        materialMap := materialMap[input := consumed.(destinations := consumed.destinations + [2 * index])];
        var produced := materialMap[output];
        materialMap := materialMap[output := produced.(origins := produced.origins + [2 * index])];
        EndsStep(network, before, index, materialMap);
      }
    }

    /** One row per material with at least one origin. The materials are visited in
        no particular order. */
    method BuildBalanceRows(materialMap: map<Material?, Ends>) returns (balanceRows: map<Material, Row>)
      requires Wired() && EndsUpTo(network, materialMap, |units|)
      ensures balanceRows == BalanceRows(network)
    {
      balanceRows := map[];
      var remaining := materialMap.Keys;
      while remaining != {}
        invariant remaining <= materialMap.Keys
        invariant RowsSoFar(network, materialMap, remaining, balanceRows)
        decreases remaining
      {
        var material :| material in remaining;
        var before := balanceRows;
        remaining := remaining - {material};
        var pair := materialMap[material];
        if pair.origins != [] {
          ProducedLowerBound(material);
          var m: Material := material;
          var coefficients := RowCoefficients(pair);
          balanceRows := balanceRows[m := Row(Finite(m.lowerBound as real), PositiveInfinity, coefficients)];
        }
        RowsStep(network, materialMap, remaining, material, before, balanceRows);
      }
      RowsDone(network, materialMap, balanceRows);
    }

    /** A material with an origin is some unit's output, so it is not null, and its
        lower bound is the one the network recorded. */
    lemma ProducedLowerBound(material: Material?)
      requires Wired() && OriginsUpTo(network, material, |units|) != []
      ensures material != null && material in network.lowerBound
      ensures network.lowerBound[material] == material.lowerBound
    {
      OriginsNonEmpty(network, material, |units|);
      var j :| 0 <= j < |units| && network.units[j].output == material;
      assert units[j].outputMaterial == material;
    }

    /** What a solve leaves in a node's status: an infeasible model marks the node
        infeasible and records the change that led to it; a solved one records the
        objective and the values, and no change. */
    ghost function Expected(call: Call): StatusView {
      Recorded(outcome(call.fixedValues), call.changed)
    }

    /** The node branched: both children hang below it, one level down, and their
        statuses hold what the solves of the two child calls record. */
    ghost predicate Children(node: Node, leftCall: Call, rightCall: Call)
      reads node, node.left, node.right
      reads if node.left != null then {node.left.solutionStatus} else {}
      reads if node.right != null then {node.right.solutionStatus} else {}
    {
      && node.left != null && node.right != null
      && node.left.level == node.level + 1 && node.right.level == node.level + 1
      && View(node.left.solutionStatus) == Expected(leftCall)
      && View(node.right.solutionStatus) == Expected(rightCall)
    }

    /** The node of a call whose solution has a fractional value branched on the
        first one: the left child comes from the call that pins that slot to
        LeftPin of the value, the right child from the one that pins it to RightPin. */
    ghost predicate BranchedOn(node: Node, overrides: Option<seq<int>>)
      requires outcome(overrides).Solved? && FirstNonInteger(outcome(overrides).values) >= 0
      reads node, node.left, node.right
      reads if node.left != null then {node.left.solutionStatus} else {}
      reads if node.right != null then {node.right.solutionStatus} else {}
    {
      var values := outcome(overrides).values;
      var k := FirstNonInteger(values);
      && k < |Base(overrides, |values|)|
      && Children(node, ChildCall(overrides, VariableName(k), values, k, LeftPin(values[k])),
                        ChildCall(overrides, VariableName(k), values, k, RightPin(values[k])))
    }

    /** The first steps of branchAndBound: a new node below the parent, then the
        solve of the model of the override array, recorded in the node's status. */
    method Evaluate(parent: Node?, fixedValues: array?<int>, lastChanged: Option<VariableState>,
                    ghost overrides: Option<seq<int>>)
      returns (node: Node, model: LpModel, result: SolveResult)
      requires Valid() && Wired() && Outcomes() && Solves() && overrides == Contents(fixedValues) && Fits(overrides)
      modifies this`tree, this`owner
      ensures Valid() && tree == old(tree) + [node]
      ensures fresh(node) && fresh(node.solutionStatus)
      ensures node.level == if parent == null then 1 else parent.level + 1
      ensures node.left == null && node.right == null && !node.solutionStatus.best
      ensures result == outcome(overrides) && View(node.solutionStatus) == Expected(Call(overrides, lastChanged))
      ensures |model.variables| == 2 * |network.units|
      ensures forall k :: 0 <= k < 2 * |network.units| ==> model.variables[k].name == VariableName(k)
    {
      node := NewNode(parent);
      model, result := Solve(fixedValues, overrides);
      if result.Solved? {
        PinnedComesBack(overrides, 0);
      }
      RecordSolve(node, model, result, lastChanged);
      Register(node);
    }

    /** branchAndBound: builds the node for one override array and, below it, the
        whole subtree. The ghost argument names the array's contents; the ghost
        results list the nodes of the subtree in creation order, and the whole
        solutions among them, in the order found. */
    method BranchAndBound(fixedValues: array?<int>, parent: Node?, lastChanged: Option<VariableState>,
                          ghost overrides: Option<seq<int>>)
      returns (node: Node, ghost nodes: seq<Node>, ghost found: seq<real>)
      requires Valid() && Wired() && Outcomes() && Solves()
      requires overrides == Contents(fixedValues) && Fits(overrides)
      modifies this, (if bestNode != null then {bestNode.solutionStatus} else {})`best
      decreases 2 * |units| - PinCount(overrides), 3
      // the best node is kept, or is one of the new nodes
      ensures Valid() && (bestNode == old(bestNode) || (bestNode in nodes && fresh(bestNode.solutionStatus)))
      ensures fresh(node) && fresh(node.solutionStatus)
      ensures node.level == if parent == null then 1 else parent.level + 1
      ensures Grew(old(tree), old(leaves), nodes, found) && |nodes| > 0 && nodes[0] == node
      ensures forall n :: n in nodes ==> fresh(n)
      ensures View(node.solutionStatus) == Expected(Call(overrides, lastChanged))
      // an infeasible node is a terminal that is never best, and the best node stays
      ensures outcome(overrides).Infeasible? ==>
        && node.left == null && node.right == null && found == [] && !node.solutionStatus.best
        && bestNode == old(bestNode)
      // a whole solution is a terminal that competes for the best node
      ensures outcome(overrides).Solved? && FirstNonInteger(outcome(overrides).values) < 0 ==>
        && node.left == null && node.right == null
        && found == [outcome(overrides).objective]
        && bestNode == if old(bestNode) == null || outcome(overrides).objective < old(bestNode.solutionStatus.value.r)
                       then node else old(bestNode)
      // otherwise the node branches on the first fractional value, its left subtree
      // comes next, and it is never best
      ensures outcome(overrides).Solved? && FirstNonInteger(outcome(overrides).values) >= 0 ==>
        && BranchedOn(node, overrides) && |nodes| > 1 && nodes[1] == node.left
        && (bestNode == old(bestNode) || bestNode in nodes[1..])
    {
      var model, result;
      node, model, result := Evaluate(parent, fixedValues, lastChanged, overrides);
      nodes, found := Expand(node, fixedValues, model, result, overrides, old(tree));
    }

    /** What branchAndBound does once the node's model is solved: an infeasible node
        is a terminal; a solved one branches on its first fractional value, or else
        is offered as the best node. The ghost results are as for branchAndBound. */
    method Expand(node: Node, fixedValues: array?<int>, model: LpModel, result: SolveResult, ghost overrides: Option<seq<int>>,
                  ghost oldTree: seq<Node>)
      returns (ghost nodes: seq<Node>, ghost found: seq<real>)
      requires Valid() && Wired() && Outcomes() && Solves()
      requires overrides == Contents(fixedValues) && Fits(overrides)
      requires result == outcome(overrides)
      requires result.Solved? ==> |model.variables| == |result.values|
      requires forall k :: 0 <= k < |model.variables| ==> model.variables[k].name == VariableName(k)
      requires node.left == null && node.right == null && !node.solutionStatus.best && tree == oldTree + [node]
      requires node.solutionStatus.feasible == result.Solved?
      requires result.Solved? ==> node.solutionStatus.value == Finite(result.objective)
      modifies this, (if bestNode != null then {bestNode.solutionStatus} else {})`best, node.solutionStatus`best
      modifies node`left, node`right
      decreases 2 * |units| - PinCount(overrides), 2
      ensures Valid()
      ensures bestNode == old(bestNode) || (bestNode in nodes && (bestNode == node || fresh(bestNode.solutionStatus)))
      ensures Grew(oldTree, old(leaves), nodes, found) && |nodes| > 0 && nodes[0] == node
      ensures forall n :: n in nodes ==> n == node || fresh(n)
      ensures node.level == old(node.level) && View(node.solutionStatus) == old(View(node.solutionStatus))
      ensures outcome(overrides).Infeasible? ==>
        && node.left == null && node.right == null && found == [] && !node.solutionStatus.best
        && bestNode == old(bestNode)
      ensures outcome(overrides).Solved? && FirstNonInteger(outcome(overrides).values) < 0 ==>
        && node.left == null && node.right == null
        && found == [outcome(overrides).objective]
        && bestNode == if old(bestNode) == null || outcome(overrides).objective < old(bestNode.solutionStatus.value.r)
                       then node else old(bestNode)
      ensures outcome(overrides).Solved? && FirstNonInteger(outcome(overrides).values) >= 0 ==>
        && BranchedOn(node, overrides) && |nodes| > 1 && nodes[1] == node.left
        && (bestNode == old(bestNode) || bestNode in nodes[1..])
    {
      if result.Infeasible? {
        nodes := [node];
        found := [];
        GrewOne(oldTree, old(leaves), node, found);
        return;
      }
      var values := result.values;
      var toChange := GetNonInteger(values);
      if toChange >= 0 {
        nodes, found := Descend(node, fixedValues, model.variables[toChange].name, values, toChange, overrides, oldTree);
      } else {
        found := Offer(node, result.objective, oldTree);
        nodes := [node];
      }
    }

    /** A node with a fractional value branches: its two subtrees are built, and the
        node comes before their nodes. The ghost results are as for branchAndBound. */
    method Descend(node: Node, fixedValues: array?<int>, name: string, values: seq<real>, toChange: int,
                   ghost overrides: Option<seq<int>>, ghost oldTree: seq<Node>)
      returns (ghost nodes: seq<Node>, ghost found: seq<real>)
      requires Valid() && Wired() && Outcomes() && Solves()
      requires overrides == Contents(fixedValues) && Fits(overrides)
      requires outcome(overrides).Solved? && outcome(overrides).values == values
      requires 0 <= toChange && toChange == FirstNonInteger(values) && name == VariableName(toChange)
      requires node != bestNode && tree == oldTree + [node]
      modifies this, (if bestNode != null then {bestNode.solutionStatus} else {})`best, node`left, node`right
      decreases 2 * |units| - PinCount(overrides), 1
      ensures Valid()
      ensures Grew(oldTree, old(leaves), nodes, found) && |nodes| > 1 && nodes[0] == node && nodes[1] == node.left
      ensures bestNode == old(bestNode) || (bestNode in nodes[1..] && fresh(bestNode.solutionStatus))
      ensures forall n :: n in nodes ==> n == node || fresh(n)
      ensures node.level == old(node.level) && View(node.solutionStatus) == old(View(node.solutionStatus))
      ensures BranchedOn(node, overrides)
    {
      ghost var leftNodes, rightNodes;
      leftNodes, rightNodes, found := Branch(node, fixedValues, name, values, toChange, overrides);
      GrewAbove(oldTree, old(leaves), node, leftNodes + rightNodes, found);
      nodes := [node] + (leftNodes + rightNodes);
      assert nodes[1..] == leftNodes + rightNodes;
    }

    /** A node whose solution is whole is a terminal: it competes for the best node,
        and its objective is the one whole solution its call finds. */
    method Offer(node: Node, objective: real, ghost oldTree: seq<Node>) returns (ghost found: seq<real>)
      requires Valid() && tree == oldTree + [node] && !node.solutionStatus.best
      requires node.left == null && node.right == null
      requires node.solutionStatus.feasible && node.solutionStatus.value == Finite(objective)
      modifies this`bestNode, this`bestIndex, this`leaves, node.solutionStatus`best
      modifies (if bestNode != null then {bestNode.solutionStatus} else {})`best
      ensures Valid() && Grew(oldTree, old(leaves), [node], found) && found == [objective]
      ensures bestNode == if old(bestNode) == null || objective < old(bestNode.solutionStatus.value.r) then node else old(bestNode)
    {
      UpdateBest(node, objective);
      found := [objective];
      GrewOne(oldTree, old(leaves), node, found);
    }

    /** The branching step of branchAndBound: the left child pins the first fractional
        value to the absolute value of its floor, the right child to one more; each
        child gets its own copy of the override array, and the left subtree is built
        first. */
    method Branch(node: Node, fixedValues: array?<int>, name: string, values: seq<real>, toChange: int,
                  ghost overrides: Option<seq<int>>)
      returns (ghost leftNodes: seq<Node>, ghost rightNodes: seq<Node>, ghost found: seq<real>)
      requires Valid() && Wired() && Outcomes() && Solves()
      requires overrides == Contents(fixedValues) && Fits(overrides)
      requires outcome(overrides).Solved? && outcome(overrides).values == values
      requires 0 <= toChange && toChange == FirstNonInteger(values) && name == VariableName(toChange)
      requires node != bestNode
      modifies this, (if bestNode != null then {bestNode.solutionStatus} else {})`best, node`left, node`right
      decreases 2 * |units| - PinCount(overrides), 0
      ensures Valid()
      ensures bestNode == old(bestNode) || (bestNode in leftNodes + rightNodes && fresh(bestNode.solutionStatus))
      ensures Grew(old(tree), old(leaves), leftNodes + rightNodes, found)
      ensures forall n :: n in leftNodes + rightNodes ==> fresh(n)
      ensures |leftNodes| > 0 && leftNodes[0] == node.left && |rightNodes| > 0 && rightNodes[0] == node.right
      ensures BranchedOn(node, overrides)
    {
      BranchSlotFree(overrides, toChange);
      PinnedComesBack(overrides, toChange);
      var leftValue := LeftPin(values[toChange]);
      var rightValue := leftValue + 1;

      var leftFixedValues, rightFixedValues := ChildArrays(fixedValues, |values|, toChange, leftValue, rightValue);

      leftNodes, rightNodes, found :=
        Subtrees(node, leftFixedValues, Some(VariableState.Create(name, leftValue as real, values[toChange])),
                 rightFixedValues, Some(VariableState.Create(name, rightValue as real, values[toChange])),
                 ChildCall(overrides, VariableName(toChange), values, toChange, LeftPin(values[toChange])),
                 ChildCall(overrides, VariableName(toChange), values, toChange, RightPin(values[toChange])));
    }

    /** Builds the left subtree, then the right one, each from its own call: the
        left subtree's nodes are created first, and its whole solutions found
        first. */
    method Subtrees(node: Node, leftFixedValues: array<int>, leftChange: Option<VariableState>,
                    rightFixedValues: array<int>, rightChange: Option<VariableState>,
                    ghost leftCall: Call, ghost rightCall: Call)
      returns (ghost leftNodes: seq<Node>, ghost rightNodes: seq<Node>, ghost found: seq<real>)
      requires Valid() && Wired() && Outcomes() && Solves()
      requires leftCall.changed == leftChange && rightCall.changed == rightChange
      requires leftCall.fixedValues == Contents(leftFixedValues) && Fits(leftCall.fixedValues)
      requires rightCall.fixedValues == Contents(rightFixedValues) && Fits(rightCall.fixedValues)
      requires PinCount(rightCall.fixedValues) == PinCount(leftCall.fixedValues)
      requires node != bestNode
      modifies this, (if bestNode != null then {bestNode.solutionStatus} else {})`best, node`left, node`right
      decreases 2 * |units| - PinCount(leftCall.fixedValues), 5
      ensures Valid()
      ensures bestNode == old(bestNode) || (bestNode in leftNodes + rightNodes && fresh(bestNode.solutionStatus))
      ensures Grew(old(tree), old(leaves), leftNodes + rightNodes, found)
      ensures found == WholeObjectives(leftNodes) + WholeObjectives(rightNodes)
      ensures forall n :: n in leftNodes + rightNodes ==> fresh(n)
      ensures |leftNodes| > 0 && leftNodes[0] == node.left && |rightNodes| > 0 && rightNodes[0] == node.right
      ensures Children(node, leftCall, rightCall)
    {
      ghost var leftFound, rightFound;
      leftNodes, leftFound := AttachLeft(node, leftFixedValues, leftChange, leftCall.fixedValues);
      assert leftFound == WholeObjectives(leftNodes);
      rightNodes, rightFound := AttachRight(node, rightFixedValues, rightChange, rightCall.fixedValues, leftNodes);
      GrewBoth(old(tree), old(leaves), leftNodes, leftFound, rightNodes, rightFound);
      found := leftFound + rightFound;
    }

    /** node.setLeft(branchAndBound(...)): builds the left subtree and hangs it below the node. */
    method AttachLeft(node: Node, fixedValues: array<int>, change: Option<VariableState>, ghost overrides: Option<seq<int>>)
      returns (ghost nodes: seq<Node>, ghost found: seq<real>)
      requires Valid() && Wired() && Outcomes() && Solves()
      requires overrides == Contents(fixedValues) && Fits(overrides) && node != bestNode
      modifies this, (if bestNode != null then {bestNode.solutionStatus} else {})`best, node`left
      decreases 2 * |units| - PinCount(overrides), 4
      ensures Valid()
      ensures bestNode == old(bestNode) || (bestNode in nodes && fresh(bestNode.solutionStatus))
      ensures Grew(old(tree), old(leaves), nodes, found) && |nodes| > 0 && nodes[0] == node.left
      ensures forall n :: n in nodes ==> fresh(n)
      ensures node.left != null && fresh(node.left) && node.left.level == node.level + 1
      ensures View(node.left.solutionStatus) == Expected(Call(overrides, change))
    {
      var left;
      left, nodes, found := BranchAndBound(fixedValues, node, change, overrides);
      node.SetLeft(left);
    }

    /** node.setRight(branchAndBound(...)): builds the right subtree and hangs it below the node. */
    method AttachRight(node: Node, fixedValues: array<int>, change: Option<VariableState>, ghost overrides: Option<seq<int>>,
                       ghost earlier: seq<Node>)
      returns (ghost nodes: seq<Node>, ghost found: seq<real>)
      requires Valid() && Wired() && Outcomes() && Solves()
      requires overrides == Contents(fixedValues) && Fits(overrides)
      requires node !in earlier && node != bestNode
      modifies this, (if bestNode != null then {bestNode.solutionStatus} else {})`best, node`right
      decreases 2 * |units| - PinCount(overrides), 4
      ensures Valid()
      ensures bestNode == old(bestNode) || (bestNode in nodes && fresh(bestNode.solutionStatus))
      ensures Grew(old(tree), old(leaves), nodes, found) && |nodes| > 0 && nodes[0] == node.right
      ensures forall n :: n in nodes ==> fresh(n)
      ensures node.right != null && fresh(node.right) && node.right.level == node.level + 1
      ensures node.left == old(node.left)
      ensures node.left != null ==>
        node.left.level == old(node.left.level) && View(node.left.solutionStatus) == old(View(node.left.solutionStatus))
      ensures View(node.right.solutionStatus) == Expected(Call(overrides, change))
      // the nodes built before keep their whole solutions, and their children
      ensures WholeObjectives(earlier) == old(WholeObjectives(earlier))
      ensures ChildrenListed(earlier) == old(ChildrenListed(earlier))
    {
      var right;
      right, nodes, found := BranchAndBound(fixedValues, node, change, overrides);
      node.SetRight(right);
      LeavesKept(earlier);
    }

    /** A whole solution competes for the best node: it wins when there is none yet or
        when its objective is strictly smaller, and the previous best loses its flag;
        on a tie the earlier node stays best. */
    method UpdateBest(node: Node, objective: real)
      requires Valid() && node in tree && !node.solutionStatus.best
      requires WholeLeaf(node) && node.solutionStatus.value == Finite(objective)
      modifies this`bestNode, this`bestIndex, this`leaves, node.solutionStatus`best
      modifies (if bestNode != null then {bestNode.solutionStatus} else {})`best
      ensures leaves == old(leaves) + [objective]
      ensures bestNode == if old(bestNode) == null || objective < old(bestNode.solutionStatus.value.r) then node else old(bestNode)
      ensures Valid()
    {
      FirstLeastAppend(leaves, bestIndex, objective);
      if bestNode == null {
        bestNode := node;
        node.SetBest(true);
        bestIndex := |leaves|;
      } else if objective < bestNode.solutionStatus.value.r {
        bestNode.SetBest(false);
        node.SetBest(true);
        bestNode := node;
        bestIndex := |leaves|;
      }
      leaves := leaves + [objective];
    }

    /** Records a new node, whose status no created node has. */
    ghost method Register(node: Node)
      requires Valid() && !node.solutionStatus.best && node.solutionStatus !in owner
      modifies this`tree, this`owner
      ensures tree == old(tree) + [node] && owner == old(owner)[node.solutionStatus := node]
      ensures Valid()
    {
      tree := tree + [node];
      owner := owner[node.solutionStatus := node];
    }
  }

  /** The columns, objective coefficients and rows of the first i units. */
  ghost predicate ColumnsUpTo(net: Network, i: nat, variables: seq<Variable>, objective: seq<real>, unitRows: seq<Row>)
    requires i <= |net.units|
  {
    && |variables| == 2 * i && (forall k :: 0 <= k < 2 * i ==> variables[k] == FreeVariable(k))
    && |objective| == 2 * i && (forall k :: 0 <= k < 2 * i ==> objective[k] == Cost(net.units[k / 2], k))
    && |unitRows| == 3 * i && (forall j :: 0 <= j < 3 * i ==> unitRows[j] == UnitRow(net.units[j / 3], j / 3, j % 3))
  }

  lemma ColumnsStep(net: Network, i: nat, variables: seq<Variable>, objective: seq<real>, unitRows: seq<Row>)
    requires i < |net.units| && ColumnsUpTo(net, i, variables, objective, unitRows)
    ensures ColumnsUpTo(net, i + 1, variables + [FreeVariable(2 * i), FreeVariable(2 * i + 1)],
                        objective + [Cost(net.units[i], 2 * i), Cost(net.units[i], 2 * i + 1)],
                        unitRows + [UnitRow(net.units[i], i, 0), UnitRow(net.units[i], i, 1), UnitRow(net.units[i], i, 2)])
  {
    var objective' := objective + [Cost(net.units[i], 2 * i), Cost(net.units[i], 2 * i + 1)];
    forall k | 2 * i <= k < 2 * i + 2
      ensures objective'[k] == Cost(net.units[k / 2], k)
    {
      assert k / 2 == i;
    }
    var unitRows' := unitRows + [UnitRow(net.units[i], i, 0), UnitRow(net.units[i], i, 1), UnitRow(net.units[i], i, 2)];
    forall j | 3 * i <= j < 3 * i + 3
      ensures unitRows'[j] == UnitRow(net.units[j / 3], j / 3, j % 3)
    {
      assert j / 3 == i && j % 3 == j - 3 * i;
    }
  }

  /** The columns and rows of unit i, written out. */
  lemma UnitColumnsAt(u: UnitSpec, i: nat)
    ensures [FreeVariable(2 * i), FreeVariable(2 * i + 1)]
         == [Variable(VariableName(2 * i), Finite(0.0), PositiveInfinity, false),
             Variable(VariableName(2 * i + 1), Finite(0.0), Finite(1.0), true)]
    ensures [Cost(u, 2 * i), Cost(u, 2 * i + 1)] == [u.proportionalCost as real, u.fixedCost as real]
    ensures [UnitRow(u, i, 0), UnitRow(u, i, 1), UnitRow(u, i, 2)]
         == [Row(Finite(0.0), PositiveInfinity, map[2 * i := 1.0]),
             Row(Finite(0.0), Finite(1.0), map[2 * i + 1 := 1.0]),
             Row(NegativeInfinity, Finite(0.0), map[2 * i := 1.0, 2 * i + 1 := Negate(u.capacity) as real])]
  {
  }

  lemma ColumnsDone(net: Network, variables: seq<Variable>, objective: seq<real>, unitRows: seq<Row>)
    requires ColumnsUpTo(net, |net.units|, variables, objective, unitRows)
    ensures variables == Variables(net) && objective == Objective(net) && unitRows == UnitRows(net)
  {
  }

  ghost predicate EndsUpTo(net: Network, materialMap: map<Material?, Ends>, i: nat)
    requires i <= |net.units|
  {
    && materialMap.Keys == Touched(net, i)
    && forall m :: m in materialMap ==>
         materialMap[m] == Ends(OriginsUpTo(net, m, i), DestinationsUpTo(net, m, i))
  }

  lemma EndsStep(net: Network, before: map<Material?, Ends>, i: nat, after: map<Material?, Ends>)
    requires i < |net.units| && EndsUpTo(net, before, i)
    requires var input := net.units[i].input; var output := net.units[i].output;
      var a := if input in before then before else before[input := Ends([], [])];
      var b := if output in a then a else a[output := Ends([], [])];
      var c := b[input := b[input].(destinations := b[input].destinations + [2 * i])];
      after == c[output := c[output].(origins := c[output].origins + [2 * i])]
    ensures EndsUpTo(net, after, i + 1)
  {
    var input := net.units[i].input;
    var output := net.units[i].output;
    assert after.Keys == before.Keys + {input, output};
    forall m | m in after
      ensures after[m] == Ends(OriginsUpTo(net, m, i + 1), DestinationsUpTo(net, m, i + 1))
    {
      assert OriginsUpTo(net, m, i + 1) == OriginsUpTo(net, m, i) + (if output == m then [2 * i] else []);
      assert DestinationsUpTo(net, m, i + 1) == DestinationsUpTo(net, m, i) + (if input == m then [2 * i] else []);
      if m !in before {
        UntouchedEnds(net, m, i);
      }
    }
  }

  /** Pins the bounds of every variable whose slot is not the sentinel; an array of
      the wrong length is ignored. */
  method FixVariables(variables: seq<Variable>, fixedValues: array<int>) returns (vars: seq<Variable>)
    ensures vars == ApplyOverrides(variables, Some(fixedValues[..]))
  {
    vars := variables;
    if fixedValues.Length == |vars| {
      for i := 0 to fixedValues.Length
        invariant |vars| == |variables|
        invariant forall k :: 0 <= k < |vars| ==>
          vars[k] == if k < i && Pinned(fixedValues[k]) then Pin(variables[k], fixedValues[k]) else variables[k]
      {
        if Pinned(fixedValues[i]) {
          vars := vars[i := Pin(vars[i], fixedValues[i])];
        }
      }
    }
  }

  /** One material's row: +1 on every origin, then -1 on every destination. */
  method RowCoefficients(pair: Ends) returns (coefficients: map<nat, real>)
    ensures coefficients == Assign(Assign(map[], pair.origins, 1.0), pair.destinations, -1.0)
  {
    coefficients := map[];
    for i := 0 to |pair.origins|
      invariant Assign(coefficients, pair.origins[i..], 1.0) == Assign(map[], pair.origins, 1.0)
    {
      assert pair.origins[i..] == [pair.origins[i]] + pair.origins[i + 1..];
      coefficients := coefficients[pair.origins[i] := 1.0];
    }
    var produced := coefficients;
    for i := 0 to |pair.destinations|
      invariant Assign(coefficients, pair.destinations[i..], -1.0) == Assign(produced, pair.destinations, -1.0)
    {
      assert pair.destinations[i..] == [pair.destinations[i]] + pair.destinations[i + 1..];
      coefficients := coefficients[pair.destinations[i] := -1.0];
    }
  }

  /** The rows built for the materials already visited. */
  ghost predicate RowsSoFar(net: Network, materialMap: map<Material?, Ends>, remaining: set<Material?>, rows: map<Material, Row>)
    requires Closed(net)
  {
    && (forall m :: m in rows ==>
          && m in materialMap && m !in remaining && materialMap[m].origins != []
          && m in net.lowerBound
          && rows[m] == Row(Finite(net.lowerBound[m] as real), PositiveInfinity, Coefficients(net, m)))
    && (forall m :: m in materialMap && m !in remaining && materialMap[m].origins != [] ==>
          m != null && m in rows)
  }

  lemma RowsStep(net: Network, materialMap: map<Material?, Ends>, remaining: set<Material?>, material: Material?,
                 before: map<Material, Row>, after: map<Material, Row>)
    requires Closed(net) && EndsUpTo(net, materialMap, |net.units|) && material in materialMap
    requires RowsSoFar(net, materialMap, remaining + {material}, before) && material !in remaining
    requires materialMap[material].origins == [] ==> after == before
    requires materialMap[material].origins != [] ==>
      && material != null && material in net.lowerBound
      && after == before[material := Row(Finite(net.lowerBound[material] as real), PositiveInfinity,
                                         Assign(Assign(map[], materialMap[material].origins, 1.0), materialMap[material].destinations, -1.0))]
    ensures RowsSoFar(net, materialMap, remaining, after)
  {
  }

  lemma RowsDone(net: Network, materialMap: map<Material?, Ends>, rows: map<Material, Row>)
    requires Closed(net) && EndsUpTo(net, materialMap, |net.units|) && RowsSoFar(net, materialMap, {}, rows)
    ensures rows == BalanceRows(net)
  {
    forall m: Material
      ensures m in rows <==> m in Outputs(net)
    {
      OriginsNonEmpty(net, m, |net.units|);
      if m in Outputs(net) {
        var i :| 0 <= i < |net.units| && net.units[i].output == m;
        OutputTouched(net, |net.units|, i);
      }
    }
  }

  /** The producers and consumers of one material, as X slots in unit order. */
  datatype Ends = Ends(origins: seq<nat>, destinations: seq<nat>)
}
