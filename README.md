# P-Graph branch and bound, modelled in Dafny

This project models the core of a small P-graph process-network tool. A problem is a
list of materials (raw materials, intermediates, products, each with a flow-rate
lower bound) and a list of operating units. Each unit has a capacity, a fixed cost and
a proportional cost, and consumes one material and produces another.

The tool does three things:

- It reads problems from a three-section text format and writes them back.
- It turns the units into a linear model. Unit `i` has a continuous `X` variable (its
  flow) and a 0/1 `Y` variable (whether it runs). The variables are interleaved
  `X1, Y1, X2, Y2, ...`. The model has a capacity row per unit and a balance row per
  produced material.
- It explores a branch-and-bound tree over that model. Each node solves the model
  under an array of pinned variable values. A node stops when the model is
  infeasible or every value is whole. Otherwise it branches on the first fractional
  value: the left child pins it to `|floor(v)|`, the right child to one more.
  Whole solutions compete for the best node by a strict less-than rule.

The modules follow the source's classes:

- `Wrappers`: `Option`, `Result` and the kinds of load failure.
- `Java`: `String.strip`, `String.split` (trailing empty pieces dropped),
  `Integer.parseInt` on 32-bit values, `%d` formatting and line joining, with
  lemmas that read them back.
- `VariableStates`: the immutable `VariableState` value and its four chained
  constructors.
- `SolutionStatuses` and `Nodes`: the mutable status record and the tree node, as
  classes with their setters.
- `Materials` and `OperatingUnits`: the entities, their `toString` texts and
  `Material.Type.fromString`.
- `LinearModels`: the linear model as data (`ModelOf`), and what it is for any
  network and override array.
- `Engine`: `getNonInteger`, `getSolver` (as loops proved to build `ModelOf`) and
  `branchAndBound`. The solver is an oracle `LpModel -> SolveResult` of the
  `PGraph` object.
- `ProblemText`: the text format on values. It has the line parsers, the section
  loop as a function over the lines (`Load`), the save layout (`SaveText`) and the
  round trip between them.
- `ProblemFiles`: the loader and writer over objects. They are proved to build
  exactly what `Load` describes and to write exactly `SaveText`.

Correspondences with the source:

- The "no override" sentinel `Integer.MIN_VALUE` is kept in the override arrays.
  `Pinned(x)` means `x != Integer.MIN_VALUE`.
- The root's `null` array is `null`, and its contents are `None`.
- Java `null` for a node's `changed` variable and its variable set is `None`.
- The objective starts at `PositiveInfinity` of `ExtReal`.
- Solution values are `real`, and "v % 1 != 0" is `v.Floor as real != v`.

Termination of `branchAndBound` comes from the solver contract: a solution lies
within its variables' bounds. So a pinned slot comes back whole, the branch slot is
always unpinned, and the number of unpinned slots decreases.

The engine carries ghost bookkeeping about the tree it builds. `tree` lists the
created nodes in creation order. Every call of `branchAndBound` adds its own node
first, then the nodes of its left call, then those of its right call. Each child
of a listed node is listed too (`ChildrenListed`), and a branching node's first
successor in the list is its left child. `leaves` lists the objectives of the
whole solutions in the order found. `WholeObjectives(nodes)` reads the objectives
of the whole leaves (solved, finite objective, no children) off a run of nodes.
Every call of `branchAndBound` adds its subtree's nodes to `tree` and their
`WholeObjectives` to `leaves` (the predicate `Grew`). The invariant `Valid` makes
the best node a created whole leaf holding the first least of `leaves`. It also
makes its status the only flagged one.

## Model

| member | source | states |
|---|---|---|
| Engine.FirstNonInteger | src/main/java/App/PGraph/PGraph.java:138-148 | the result is the least index whose value is not whole, and it is -1 exactly when every value is whole |
| Engine.GetNonInteger | src/main/java/App/PGraph/PGraph.java:138-148 | the counter loop returns FirstNonInteger of the values, scanning X variables as well as Y |
| Engine.TakeSnapshot | src/main/java/App/PGraph/PGraph.java:79-85 | the set collected is Snapshot(values): one state per variable with its name and value and previous value -1 |
| Engine.SnapshotMembers | src/main/java/App/PGraph/PGraph.java:79-83 | a state is in the snapshot exactly when it is (name of variable k, value k, -1) for some solved k |
| Engine.HonoursRespects | src/main/java/App/PGraph/PGraph.java:236-245 | a solution within the model's bounds returns each pinned slot as its pin, which is the solver contract the search relies on |
| Engine.ChildPins | src/main/java/App/PGraph/PGraph.java:97-109 | pinning a free slot of the copied array pins exactly one slot more, and never more slots than variables (the termination measure) |
| Engine.CopyWithPin | src/main/java/App/PGraph/PGraph.java:105-109 | the copy is fresh and equals the source array except at slot k, which holds the pin |
| Engine.ChildArrays | src/main/java/App/PGraph/PGraph.java:100-109 | both child arrays are fresh copies of the node's array, or of an all-sentinel array at the root, each with slot k set to its own pin; each pins one slot more |
| Engine.FirstLeastUnique | src/main/java/App/PGraph/PGraph.java:119-126 | the first least objective is at one position only, so there is a single best |
| Engine.FirstLeastAppend | src/main/java/App/PGraph/PGraph.java:119-126 | a new whole solution becomes the first least exactly when there is none yet or it is strictly smaller; on a tie the earlier one stays |
| Engine.NewNode | src/main/java/App/PGraph/PGraph.java:61-64 | the new node is at level 1 without a parent and at the parent's level + 1 otherwise, with no children and a default status |
| Engine.RecordSolve | src/main/java/App/PGraph/PGraph.java:72-85 | an infeasible solve clears the feasible flag and records the incoming change; a solved one records the objective and the snapshot of the values; the status is otherwise as the new node left it |
| Engine.FixVariables | src/main/java/App/PGraph/PGraph.java:236-245 | the loop leaves the variables as ApplyOverrides: bounds pinned at non-sentinel slots, and an array of the wrong length ignored |
| Engine.RowCoefficients | src/main/java/App/PGraph/PGraph.java:229-231 | the coefficients are +1 at every origin and then -1 at every destination, destinations overwriting origins |
| Engine.PGraph.OneBest | src/main/java/App/PGraph/PGraph.java:119-126 | under the engine invariant a created node carries the best flag exactly when it is the best node, so no two created nodes carry it |
| Engine.WholeObjectivesAppend | src/main/java/App/PGraph/PGraph.java:113-114 | the whole leaves of a run of nodes followed by another are those of the first, then those of the second |
| Engine.PGraph.GrewOne | src/main/java/App/PGraph/PGraph.java:72-75 | a call that adds one node without children adds its objective to the whole solutions when it is a whole leaf, and nothing otherwise; its children (none) are listed |
| Engine.PGraph.GrewAbove | src/main/java/App/PGraph/PGraph.java:96-114 | a branching node created before its subtree, whose two children are among the subtree's nodes, adds no whole solution of its own and keeps every child listed |
| Engine.PGraph.GrewBoth | src/main/java/App/PGraph/PGraph.java:113-114 | the left call's nodes and whole solutions, then the right call's, make up those of both calls in order, with every child listed |
| Engine.PGraph.PinnedComesBack | src/main/java/App/PGraph/PGraph.java:236-245 | a solved model has one value per variable, and a pinned slot comes back equal to its pin |
| Engine.PGraph.BranchSlotFree | src/main/java/App/PGraph/PGraph.java:92-98 | the slot getNonInteger picks is within the array and not pinned yet |
| Engine.PGraph.SolvesFromContract | src/main/java/App/PGraph/PGraph.java:67-69 | a solver that keeps within the bounds of every model respects every pin |
| Engine.PGraph.constructor | src/main/java/App/PGraph/PGraph.java:38-50 | the whole tree is built from the root at level 1 without overrides; the root's status is what the solve of the unpinned model gives; the created nodes start with the root and hold every child of every created node; the whole solutions that competed are the objectives of the whole leaves among them, in creation order; the best node is a whole leaf holding the first least of them and the only created node flagged; an infeasible root leaves no best node, a whole root is the best node, and a branching root is not |
| Engine.PGraph.Build | src/main/java/App/PGraph/PGraph.java:48-50 | on an empty tree, the root is the node branchAndBound builds without overrides; the tree starts with it and holds every child of every node in it; the competing whole solutions are exactly the whole leaves' objectives in creation order; the root's outcome decides as for the constructor whether it is the best node |
| Engine.PGraph.GetSolver | src/main/java/App/PGraph/PGraph.java:156-248 | the model built is ModelOf(network, contents of the override array) |
| Engine.PGraph.Solve | src/main/java/App/PGraph/PGraph.java:67-69 | the result is the oracle's outcome for the array, over 2n variables named X1, Y1, X2, Y2, ... |
| Engine.PGraph.UnitColumns | src/main/java/App/PGraph/PGraph.java:169-193 | the loop builds exactly the model's variables, objective coefficients and three rows per unit |
| Engine.PGraph.CollectEnds | src/main/java/App/PGraph/PGraph.java:207-221 | the map holds every material a unit touches, with the X slots of its producers as origins and of its consumers as destinations, in unit order |
| Engine.PGraph.BuildBalanceRows | src/main/java/App/PGraph/PGraph.java:225-233 | visiting the materials in any order gives exactly BalanceRows: one row per material with an origin |
| Engine.PGraph.ProducedLowerBound | src/main/java/App/PGraph/PGraph.java:226-227 | a material with an origin is not null, and the row's lower bound is that material's lower bound |
| Engine.PGraph.Evaluate | src/main/java/App/PGraph/PGraph.java:61-86 | a new node one level below the parent; an infeasible solve marks it infeasible and records the incoming change; a solved one records objective and snapshot; nothing is flagged best |
| Engine.PGraph.BranchAndBound | src/main/java/App/PGraph/PGraph.java:60-130 | infeasible: a terminal with no children that is never best, and the best node stays; all values whole: a terminal that becomes best only if none exists or its objective is strictly smaller; otherwise two children one level down, built from ChildCall with the left pin `abs(floor(v))` and the right pin one more, the left child next in creation order, and the best node kept or one of the subtree's nodes; the nodes added are this node and then its subtree's, all new, every child of them among them, and the whole solutions added are exactly the objectives of the whole leaves among them, in creation order; the engine invariant is kept and the tree is finite |
| Engine.PGraph.Expand | src/main/java/App/PGraph/PGraph.java:72-127 | an infeasible node stays a terminal that is never best and the best node stays; a solved node branches on the first fractional value, with the best node kept or below it, or else competes for best under the strict less-than rule; the node's level and status are kept apart from the best flag; the nodes and whole solutions added are as for BranchAndBound |
| Engine.PGraph.Descend | src/main/java/App/PGraph/PGraph.java:92-114 | a node with a fractional value, not the best node, gets its two subtrees; the nodes added are the node, then its left child and the rest of both subtrees, all new but the node; the best node is kept or is below it; the node's level and status are kept |
| Engine.PGraph.Offer | src/main/java/App/PGraph/PGraph.java:117-127 | a whole solution is the one whole solution its call adds, and becomes best exactly when there is none yet or its objective is strictly smaller |
| Engine.PGraph.Branch | src/main/java/App/PGraph/PGraph.java:96-114 | both children hang below the node one level down; their statuses are those of the left call (pin `abs(floor(v))`, change (name, pin, v)) and the right call (pin + 1); the nodes added are the left subtree's, starting with the left child, then the right subtree's, starting with the right child, all new, with every child listed and exactly their whole leaves' objectives; the best node is kept or is one of them |
| Engine.PGraph.Subtrees | src/main/java/App/PGraph/PGraph.java:113-114 | the left subtree's nodes are created before the right one's, starting with the left and the right child; the whole solutions found are the left subtree's whole leaves' objectives followed by the right's; the best node is kept or is one of the new nodes |
| Engine.PGraph.AttachLeft | src/main/java/App/PGraph/PGraph.java:113 | the node's left child is the fresh subtree root of the left call, one level down, and the first of the new nodes |
| Engine.PGraph.AttachRight | src/main/java/App/PGraph/PGraph.java:114 | the node's right child is the fresh subtree root of the right call; the left child, and the whole leaves and listed children among the nodes built before, are untouched |
| Engine.LeavesKept | src/main/java/App/PGraph/PGraph.java:113-114 | a heap change that keeps the children and the recorded objectives of some nodes keeps their whole leaves' objectives and keeps their children listed |
| Engine.PGraph.UpdateBest | src/main/java/App/PGraph/PGraph.java:119-126 | a whole leaf becomes best exactly when there is none or its objective is strictly smaller; the previous best's flag is cleared; the best is the first least whole solution |
| LinearModels.OverridesOnlyPin | src/main/java/App/PGraph/PGraph.java:236-245 | a pinned slot fixes only its own variable's bounds to [v, v]; an unpinned slot leaves a free variable; objective, unit rows and balance rows are those of the unpinned model |
| LinearModels.ModelNames | src/main/java/App/PGraph/PGraph.java:169-172 | the model has 2n variables named X1, Y1, X2, Y2, ... whatever the overrides |
| LinearModels.OverridesOfWrongLength | src/main/java/App/PGraph/PGraph.java:238 | an override array whose length differs from the variable count leaves the model as without overrides |
| LinearModels.UnitRowsOf | src/main/java/App/PGraph/PGraph.java:177-192 | unit i has the rows X >= 0, 0 <= Y <= 1 and X - capacity * Y <= 0 |
| LinearModels.BalanceRowsShape | src/main/java/App/PGraph/PGraph.java:207-233 | exactly the produced materials have a row, bounded below by their lower bound and not above; the X of each unit touching the material takes part, -1 for a consumer (also when it produces it) and +1 for a producer |
| LinearModels.OriginsNonEmpty | src/main/java/App/PGraph/PGraph.java:218 | a material has origins exactly when some unit produces it |
| LinearModels.ModelOf | src/main/java/App/PGraph/PGraph.java:156-248 | the model getSolver builds; given meaning by ModelNames, UnitRowsOf, BalanceRowsShape, OverridesOnlyPin, OverridesOfWrongLength and Engine.PGraph.GetSolver (the loops build exactly it) |
| LinearModels.BalanceRows | src/main/java/App/PGraph/PGraph.java:207-233 | one row per produced material; given meaning by BalanceRowsShape, OriginsNonEmpty and Engine.PGraph.BuildBalanceRows |
| Materials.FirstMatch | src/main/java/App/PGraph/Entities/Material.java:97-102 | the result is a type that matches; the failure holds exactly when none of the types matches |
| Materials.FromStringMatches | src/main/java/App/PGraph/Entities/Material.java:61-102 | fromString gives t exactly when t matches the text, and fails exactly when no type matches |
| Materials.MatchesDisjoint | src/main/java/App/PGraph/Entities/Material.java:61-83 | no text matches two types, so the first match in declaration order is the only one |
| Materials.TokenWords | src/main/java/App/PGraph/Entities/Material.java:35 | the words toString writes are raw_material, intermediate and product |
| Materials.FromStringToken | src/main/java/App/PGraph/Entities/Material.java:35 | fromString of the type word toString writes gives back the same type |
| Materials.Matches | src/main/java/App/PGraph/Entities/Material.java:59-89 | the words each type accepts, without regard to case; given meaning by MatchesDisjoint (no text matches two types) and FromStringMatches |
| Materials.FromString | src/main/java/App/PGraph/Entities/Material.java:97-102 | the first type in declaration order that matches, else InvalidType; given meaning by FirstMatch and FromStringMatches (gives t exactly when t matches) |
| Materials.Token | src/main/java/App/PGraph/Entities/Material.java:35 | the type word toString writes, the display name lower-cased with '_' for ' '; given meaning by TokenWords and FromStringToken (fromString reads it back as the same type) |
| Materials.MaterialText | src/main/java/App/PGraph/Entities/Material.java:34-36 | the material's toString line; given meaning by ProblemText.MaterialRoundTrip (it parses back to the same material) and ProblemText.NegativeLowerBoundLost |
| Materials.LowerBoundSuffix | src/main/java/App/PGraph/Entities/Material.java:35 | the lower-bound field, written only for a positive bound; given meaning by ProblemText.MaterialRoundTrip (read back as the bound) and ProblemText.NegativeLowerBoundLost (a negative bound reads back as 0) |
| Materials.Material.constructor | src/main/java/App/PGraph/Entities/Material.java:22-26 | a new material keeps its name and type and has lower bound 0 |
| Materials.Material.SetLowerBound | src/main/java/App/PGraph/Entities/Material.java:46-48 | the lower bound is set and nothing else changes |
| OperatingUnits.OperatingUnit.constructor | src/main/java/App/PGraph/Entities/OperatingUnit.java:29-36 | name, capacity and both costs are stored, both material names are empty and no material is set; the flow part of toString is "name:  => " |
| OperatingUnits.OperatingUnit.SetInputMaterial | src/main/java/App/PGraph/Entities/OperatingUnit.java:63-66 | the input reference and its name are set, nothing else |
| OperatingUnits.OperatingUnit.SetOutputMaterial | src/main/java/App/PGraph/Entities/OperatingUnit.java:72-75 | the output reference and its name are set, nothing else |
| OperatingUnits.UnitLine | src/main/java/App/PGraph/Entities/OperatingUnit.java:40 | the unit part of toString; given meaning by ProblemText.UnitRoundTrip (it parses back to the unit's fields) and ProblemText.UnitKeysIgnored |
| OperatingUnits.FlowLine | src/main/java/App/PGraph/Entities/OperatingUnit.java:40 | the flow part of toString; given meaning by ProblemText.FlowRoundTrip (it parses back to the three names) and ProblemText.UnlinkedUnitLost (with no materials it fails to parse) |
| OperatingUnits.UnitText | src/main/java/App/PGraph/Entities/OperatingUnit.java:39-41 | both parts joined at ';'; given meaning by ProblemText.UnitTextPieces and ProblemText.UnitPartsPlain (splitting at ';' gives back the two parts) |
| VariableStates.VariableState.Default | src/main/java/App/PGraph/Utils/VariableState.java:18-22 | the state is ("", -1, -1) |
| VariableStates.VariableState.Named | src/main/java/App/PGraph/Utils/VariableState.java:28-31 | the name is kept, and value and previous value are -1 |
| VariableStates.VariableState.WithValue | src/main/java/App/PGraph/Utils/VariableState.java:38-41 | name and value are kept, and previous value is -1 |
| VariableStates.VariableState.Create | src/main/java/App/PGraph/Utils/VariableState.java:49-52 | all three fields are set |
| SolutionStatuses.SolutionStatus.constructor | src/main/java/App/PGraph/Utils/SolutionStatus.java:28-34 | value, variables and changed are stored unchanged; a new status is feasible and not best |
| SolutionStatuses.SolutionStatus.SetFeasible | src/main/java/App/PGraph/Utils/SolutionStatus.java:40-42 | only the feasible flag changes |
| SolutionStatuses.SolutionStatus.SetBest | src/main/java/App/PGraph/Utils/SolutionStatus.java:48-50 | only the best flag changes |
| SolutionStatuses.SolutionStatus.SetVariables | src/main/java/App/PGraph/Utils/SolutionStatus.java:56-58 | only the variables change |
| SolutionStatuses.SolutionStatus.SetChanged | src/main/java/App/PGraph/Utils/SolutionStatus.java:64-66 | only the changed variable changes |
| SolutionStatuses.SolutionStatus.SetValue | src/main/java/App/PGraph/Utils/SolutionStatus.java:72-74 | only the objective value changes |
| Nodes.Node.constructor | src/main/java/App/PGraph/Node.java:45-59 | no children, and a fresh status with objective +infinity, no variables, no changed variable, feasible and not best |
| Nodes.Node.SetLeft | src/main/java/App/PGraph/Node.java:150-152 | only the left child changes |
| Nodes.Node.SetRight | src/main/java/App/PGraph/Node.java:158-160 | only the right child changes |
| Nodes.Node.SetLevel | src/main/java/App/PGraph/Node.java:166-168 | only the level changes |
| Nodes.Node.SetFeasible | src/main/java/App/PGraph/Node.java:174-176 | only the status's feasible flag changes |
| Nodes.Node.SetBest | src/main/java/App/PGraph/Node.java:178-180 | only the status's best flag changes |
| ProblemText.FirstUnit | src/main/java/App/PNS.java:439-444 | the position found holds the name and no earlier unit does; None exactly when no unit has the name |
| ProblemText.LastMaterial | src/main/java/App/PNS.java:450-458 | the position found holds the name and no later material does; None exactly when no material has the name |
| ProblemText.ParseMaterial | src/main/java/App/PNS.java:481-498 | lineToMaterial with its three failures (line, data, type); given meaning by MaterialRoundTrip and by ProblemFiles.LineToMaterial, which builds exactly its result |
| ProblemText.MaterialFrom | src/main/java/App/PNS.java:105-120 | getMaterial: lower bound 0 without a second field, InvalidLowerBound on a bad one; given meaning by MaterialRoundTrip and ProblemFiles.GetMaterial |
| ProblemText.FieldValue | src/main/java/App/PNS.java:94-96 | the int after the first '=', IndexOutOfBounds without one, InvalidUnitData on a bad number; given meaning by UnitKeysIgnored |
| ProblemText.UnitFrom | src/main/java/App/PNS.java:90-103 | getOperatingUnit: the three values by position; given meaning by UnitKeysIgnored and ProblemFiles.GetOperatingUnit |
| ProblemText.ParseUnit | src/main/java/App/PNS.java:507-519 | lineToOperatingUnit with its line and data failures; given meaning by UnitRoundTrip, UnitKeysIgnored and ProblemFiles.LineToOperatingUnit |
| ProblemText.ParseFlow | src/main/java/App/PNS.java:421-433 | the flow-line split with its line and data failures; given meaning by FlowRoundTrip and UnlinkedUnitLost |
| ProblemText.Connect | src/main/java/App/PNS.java:435-465 | the unit and material searches and the linking; given meaning by ProblemFiles.ConnectCases (its three outcomes) and ProblemFiles.ConnectFlow |
| ProblemText.Step | src/main/java/App/PNS.java:405-413 | one turn of the loop; given meaning by StepHeader, StepEmpty, StepMaterial, StepUnit, StepFlow and ProblemFiles.LoadLine |
| ProblemText.SectionStep | src/main/java/App/PNS.java:415-466 | the section dispatch; given meaning by StepMaterial, StepUnit, StepFlow and ProblemFiles.LoadSectionLine |
| ProblemText.Load | src/main/java/App/PNS.java:395-467 | the loop from section -1 with no objects; given meaning by LoadFromAppend, LoadSaved and ProblemFiles.LoadFile |
| ProblemText.SaveText | src/main/java/App/PNS.java:538-556 | the saved text; given meaning by SaveTextLines, LoadSaved (it loads back) and ProblemFiles.SaveFile (the writer writes exactly it) |
| ProblemText.UnitTextPieces | src/main/java/App/PNS.java:547-550 | splitting a unit's toString at ';' always gives a unit part and a flow part |
| ProblemText.MaterialRoundTrip | src/main/java/App/PNS.java:481-498 | a material's toString line parses back to the same material when its name is plain and its lower bound is not negative |
| ProblemText.NegativeLowerBoundLost | src/main/java/App/PGraph/Entities/Material.java:35 | a negative lower bound is not written, so the line parses back with lower bound 0 |
| ProblemText.UnlinkedUnitLost | src/main/java/App/PNS.java:426-429 | a unit saved before any material was set has the flow part "name:  => ", which fails to load with the invalid-flow-data error |
| ProblemText.UnitKeysIgnored | src/main/java/App/PNS.java:90-103 | the three numbers of a unit line are read by position, whatever plain keys precede them |
| ProblemText.UnitRoundTrip | src/main/java/App/PNS.java:507-519 | the unit part of toString parses back to the unit with no materials set |
| ProblemText.FlowRoundTrip | src/main/java/App/PNS.java:421-433 | the flow part of toString parses back to the unit's name and its two material names |
| ProblemText.UnitPartsPlain | src/main/java/App/PGraph/Entities/OperatingUnit.java:40 | with plain names, the two pieces of toString are the unit line and the flow line, each a single line |
| ProblemText.LoadFromAppend | src/main/java/App/PNS.java:404-467 | the loop over two blocks of lines is the loop over the second from where the first left off |
| ProblemText.StepHeader | src/main/java/App/PNS.java:407-410 | any of the three headers advances the section counter, whichever header it is |
| ProblemText.StepEmpty | src/main/java/App/PNS.java:412-413 | a blank line inside a section changes nothing |
| ProblemText.StepMaterial | src/main/java/App/PNS.java:415-417 | in section 0 a material line appends its material |
| ProblemText.StepUnit | src/main/java/App/PNS.java:418-419 | in section 1 a unit line appends its unit, with no materials |
| ProblemText.StepFlow | src/main/java/App/PNS.java:420-466 | in section 2 a flow line connects the first unit with the name to the last materials with the names |
| ProblemText.LoadMaterialLines | src/main/java/App/PNS.java:415-417 | the saved material lines load every material, in order |
| ProblemText.LoadUnitLines | src/main/java/App/PNS.java:418-419 | the saved unit lines load every unit, in order, none linked yet |
| ProblemText.LoadFlowLines | src/main/java/App/PNS.java:420-466 | the saved flow lines link every unit, in order, to the materials it was saved with |
| ProblemText.SaveTextLines | src/main/java/App/PNS.java:538-556 | the saved text is the header lines, the blank separators and the section lines, each ending in a line feed |
| ProblemText.LoadSaved | src/main/java/App/PNS.java:538-556 | requires plain, distinct names, lower bounds that are not negative and every unit linked to both of its materials; then reading back the saved text gives the same materials in the same order and the same units, each linked to the same materials |
| ProblemFiles.GetMaterial | src/main/java/App/PNS.java:105-120 | a fresh material whose fields are MaterialFrom's, or MaterialFrom's error |
| ProblemFiles.LineToMaterial | src/main/java/App/PNS.java:481-498 | a fresh material whose fields are ParseMaterial's, or ParseMaterial's error |
| ProblemFiles.GetOperatingUnit | src/main/java/App/PNS.java:90-103 | a fresh unit without materials whose fields are UnitFrom's, or UnitFrom's error |
| ProblemFiles.LineToOperatingUnit | src/main/java/App/PNS.java:507-519 | a fresh unit without materials whose fields are ParseUnit's, or ParseUnit's error |
| ProblemFiles.LastMaterialExtended | src/main/java/App/PNS.java:450-458 | extending the list by one material keeps the last find unless that material has the name |
| ProblemFiles.FindUnit | src/main/java/App/PNS.java:439-444 | the unit returned is the object at FirstUnit's position, or null when no unit has the name |
| ProblemFiles.FindMaterials | src/main/java/App/PNS.java:450-458 | each material returned is the object at LastMaterial's position for its name, or null |
| ProblemFiles.LoadFlowLine | src/main/java/App/PNS.java:420-465 | fails exactly when the flow line fails to parse or connect, with that error; otherwise the objects hold the connected state |
| ProblemFiles.ConnectFlow | src/main/java/App/PNS.java:435-465 | a missing unit is UnitNotFound, a missing material MaterialNotFound; otherwise the objects hold Connect's state |
| ProblemFiles.ConnectUnit | src/main/java/App/PNS.java:450-465 | once the first unit with the name is found, a missing material is MaterialNotFound; otherwise the objects hold Connect's state |
| ProblemFiles.ConnectCases | src/main/java/App/PNS.java:446-465 | Connect's three outcomes in the order the source checks them |
| ProblemFiles.Link | src/main/java/App/PNS.java:464-465 | after the two setters, the objects hold the state with unit k linked to the two materials, and every other unit unchanged |
| ProblemFiles.LoadLine | src/main/java/App/PNS.java:405-466 | one line of the loop fails exactly when Step fails, with its error; otherwise the section counter and the objects hold Step's state |
| ProblemFiles.LoadSectionLine | src/main/java/App/PNS.java:415-466 | a line inside a section fails exactly when SectionStep does; otherwise the objects hold its state; later sections ignore the line |
| ProblemFiles.LoadMaterialLine | src/main/java/App/PNS.java:415-417 | fails exactly when ParseMaterial does; otherwise the parsed material is appended as a fresh object |
| ProblemFiles.LoadUnitLine | src/main/java/App/PNS.java:418-419 | fails exactly when ParseUnit does; otherwise the parsed unit is appended as a fresh object without materials |
| ProblemFiles.MaterialAdded | src/main/java/App/PNS.java:417 | appending a material object keeps every unit's references |
| ProblemFiles.UnitAdded | src/main/java/App/PNS.java:419 | appending a new unit object without materials keeps the objects in step with the state |
| ProblemFiles.LoadFile | src/main/java/App/PNS.java:395-467 | the load fails exactly when Load fails, with the same error; otherwise the fresh material and unit objects hold Load's lists, in order, with each unit's references at the recorded positions |
| ProblemFiles.SaveFile | src/main/java/App/PNS.java:538-556 | the text written is SaveText of the materials' and units' fields |
| ProblemFiles.WriteMaterials | src/main/java/App/PNS.java:539-541 | each material's toString, on a line of its own, in order |
| ProblemFiles.WriteUnits | src/main/java/App/PNS.java:546-551 | the unit pieces of toString, each on a line of its own, and the flow pieces kept in order |
| ProblemFiles.WriteLines | src/main/java/App/PNS.java:554-556 | each kept flow piece, on a line of its own, in order |
| Java.Strip | src/main/java/App/PNS.java:405 | String.strip; given meaning by StripTrimmed, StripSpaceBefore and StripSpaceAfter (one space around a trimmed text is removed, and a trimmed text is kept) |
| Java.Split | src/main/java/App/PNS.java:482 | String.split at a literal separator, trailing empty pieces dropped; given meaning by SplitTwo, SplitThree and SplitNone (the pieces between separator-free texts) |
| Java.ParseInt | src/main/java/App/PNS.java:94-96 | Integer.parseInt on 32-bit values; given meaning by ParseIntToString (the %d text of an int reads back as it) |

## Left out

- File dialogs, `Scanner` and `FileWriter` are left out. `loadFile` works on a
  sequence of lines and `saveFile` returns the text. `ProblemText.LoadSaved`
  connects them through `Lines`, which splits at line feeds.
- A load failure is a `Failure` value; in the source it is an
  `IllegalArgumentException` or `ArrayIndexOutOfBoundsException` that escapes
  `loadFile`. The message texts are not modelled.
- After a successful load the source calls `loadGraph`, which draws the graph.
  That is not part of this model.
- OR-tools, GLOP and `Loader.loadNativeLibraries` are not part of this model. The
  solver is an oracle function. The engine assumes it keeps every solution within
  its variables' bounds (the `SolverContract` precondition of
  `Engine.PGraph.constructor`). Integrality of `Y` is recorded in the model but not
  required of the solver, as with the LP solver the source uses.
- Engine.PGraph.constructor: requires every unit to have an output material
  (`HasOutputs`). In the source a unit that no flow line names keeps a null output.
  The balance rows then reach `material.getLower_bound()` on the null key
  (`src/main/java/App/PGraph/PGraph.java:227`). That call comes from `getSolver`,
  which `branchAndBound` calls at line 67 of the same file, outside its `try`. So
  the `NullPointerException` escapes the constructor. That failure is not
  modelled.
- Engine.PGraph.constructor: the best node is a created whole leaf whose objective
  is the first least of the whole solutions found. When two whole leaves share that
  objective, the contract does not say which node is best. That follows from the
  tie rule of each offer (`Engine.PGraph.UpdateBest`): the earlier one stays.
- The solver-exception path (`catch (Exception e)` in `branchAndBound`) is not
  modelled: the oracle always returns `Infeasible` or `Solved`.
- Floating point is modelled as `real`. NaN, infinities in solution values, and the
  saturation of the `(int) Math.floor` cast are not modelled. `LeftPin` is
  `abs(floor(v))` on unbounded integers, and the right pin is one more.
- The constraint names and the `HashMap` iteration order of the balance rows are
  not modelled. The rows are a map keyed by the material object, which is what
  the identity-keyed `HashMap` gives.
- The `depth` field of `PGraph`, the drawing properties of `Node` (`getDraw`,
  coordinates, radius, text) and all JavaFX code are left out. `getBestNode` and
  the other getters are field reads.
- The `OperatingUnit` name's `SimpleStringProperty` is modelled as a plain string.
- The section counter is an unbounded `int`. Java's `int` would wrap only after
  2^31 header lines.
- Case folding and digits are ASCII: case folding for `equalsIgnoreCase` and
  `toLowerCase`, and `parseInt`'s digits, cover ASCII only. Non-ASCII letters and
  digits are not modelled. `strip` uses the whole `Character.isWhitespace` set.
- Lines are split at the line feed only. `Scanner.nextLine` also ends a line at a
  carriage return (alone or before a line feed), U+0085, U+2028 and U+2029. A file
  holding those characters is not modelled.
- ProblemText.LoadSaved: the round trip is proved only for names that are not
  empty, hold no ':', ',', ';', '=' or line terminator (line feed, carriage return,
  U+0085, U+2028, U+2029) and no white space at either end,
  with distinct names, lower bounds that are not negative, and every unit linked to
  both of its materials. Other names can change meaning when re-read. A negative
  lower bound reads back as 0 (`ProblemText.NegativeLowerBoundLost`). A unit linked
  to no material is saved as "name:  => ", and that line fails to load with
  `InvalidFlowData` (`ProblemText.UnlinkedUnitLost`).
