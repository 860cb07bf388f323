# StifnessMethod in Dafny

A verified model of the core of StifnessMethod, a small Python implementation
of the direct stiffness method for plane frames. It covers the node records,
the cross-section and material records, the equivalent nodal loads, the bar
element and the analysis that collects the nodes and numbers the equations of
the structure.

The modules follow the source files:

- `StiffNode` (node.dfy): the node record, a `class` with its coordinates and its
  DoF array. The numbering overwrites that array slot by slot.
- `StiffGeo` (geo.dfy) and `StiffMech` (mech.dfy): the section properties and the
  material properties. Both are computed once at construction, so they are modelled
  as datatypes built by functions.
- `StiffLoad` (load.dfy): the fixed-end force vectors of a uniform load and of a
  concentrated force. There are static-equilibrium lemmas over these vectors.
- `StiffElement` (element.dfy):
  - the element counter, a class;
  - the load check, and the superposition of loads into `fel`;
  - the gathering of an element's six global equations;
  - the truss and beam stiffness matrices, the rotation matrix and the congruence
    Rt·kloc·R;
  - the element itself, a class whose methods assign `fel`, `rotationMatrix` and `kel`.
- `StiffAnalysis` (analysis.dfy): the analysis class. Its constructor:
  - collects the nodes of the elements;
  - runs the free pass and the constrained pass over the node list, writing
    equation indices into the DoF arrays;
  - allocates the global vectors and matrix.
- Helper modules:
  - `NodeDiscovery` (discovery.dfy): the first-appearance collection of nodes, as functions.
  - `Numbering` (numbering.dfy): the two support tables and the numbering as functions
    of the node kinds, with the lemmas that it is a bijection onto [0, total).
  - `Matrices` (matrices.dfy): 6×6 matrices over `real`.
  - `RealPowers` (powers.dfy): powers of a real, with field facts.
  - `Seqs` (seqs.dfy): `Distinct` and `IndexOf`.
  - `Outcomes` (outcomes.dfy): `Option` and `Result`.

The headline result is about the numbering, once the analysis has been constructed:
- `NumberingInRange`: every DoF entry of every collected node is an index in
  [0, numberEquations). It is below numberFreeEquations exactly when the free pass
  numbered the slot.
- `NumberingInjective`: no two slots share an index.
- `NumberingCovers`: every index in [0, numberEquations) is held by some slot.
- `ElementEquationsNumbered`: an element with two different collected end nodes gathers
  six distinct equation indices, all below numberEquations.

## Model

| member | source | states |
|---|---|---|
| StiffNode.Node.constructor | TStiffNode.py:20-24 | the node keeps the given coordinates and DoF list (the list itself, not a copy), support type and hinge flag |
| StiffNode.Node.SetCoordinates | TStiffNode.py:31-32 | after setting, the coordinates are the new ones and the DoF list is unchanged |
| StiffNode.Node.SetDoF | TStiffNode.py:36-37 | after setting, the DoF list is the new one and the coordinates are unchanged |
| StiffGeo.CalcArea | TStiffGeo.py:55-68 | an area is produced exactly for a rectangle or a circle; an unrecognised section gives none (Python's implicit None) |
| StiffGeo.CalcInertia | TStiffGeo.py:70-83 | an inertia is produced exactly for a rectangle or a circle; an unrecognised section gives none |
| StiffGeo.NewSection | TStiffGeo.py:30-32 | construction keeps the descriptor and derives both properties from it; they are present or absent together |
| StiffGeo.RectangleInertiaFromArea | TStiffGeo.py:61-79 | a rectangle's inertia is its area times height squared over 12 (base·h³/12 against base·h) |
| StiffGeo.CircleInertiaFromArea | TStiffGeo.py:66-83 | a circle's inertia is its area times radius squared over 4 (pi·r⁴/4 against pi·r²) |
| StiffGeo.PositiveSection | TStiffGeo.py:55-83 | positive dimensions (and a positive pi) give a positive area and a positive inertia |
| StiffMech.NewMaterial | TStiffMech.py:20-36 | the E and poisson getters return the given values; G·(1 + poisson) == E, i.e. G = E/(1 + poisson) as the code writes it |
| StiffLoad.CalcReactionForces | TStiffLoad.py:54-74 | a vector comes out for both load patterns, unless a + b == 0 for a nodal force; it has six entries and zero axial components (0 and 3); an undefined pattern gives an error and no vector |
| StiffLoad.NewLoad | TStiffLoad.py:35-36 | building a load stores the vector its descriptor yields; an undefined pattern builds nothing |
| StiffLoad.UniformLoadEquilibrium | TStiffLoad.py:60-64 | the shears add up to q·l and are equal; the end moments are equal and opposite; the end forces balance the load's moment q·l²/2 about the first node |
| StiffLoad.NodalForceEquilibrium | TStiffLoad.py:66-71 | the shears of a concentrated force add up to P, and the end forces balance its moment P·a about the first node |
| StiffLoad.NodalForceShearBalance | TStiffLoad.py:66-71 | r[1] + r[4] == P for every a, b with a + b ≠ 0 |
| StiffLoad.NodalForceMomentBalance | TStiffLoad.py:66-71 | r[4]·(a + b) + r[2] + r[5] == P·a |
| StiffLoad.CubeIdentity | TStiffLoad.py:71 | b²(3a + b) + a²(a + 3b) == (a + b)³, scaled by P |
| StiffLoad.NodalForceAtFirstNode | TStiffLoad.py:66-71 | with a = 0 the vector is [0, P, 0, 0, 0, 0]: the whole force sits on the first node |
| StiffLoad.NodalForceMirror | TStiffLoad.py:66-71 | swapping a and b mirrors the vector end for end, and the moments change sign |
| StiffLoad.MirrorShear | TStiffLoad.py:71 | swapping a and b exchanges the two shear forces |
| StiffLoad.MirrorMoment | TStiffLoad.py:71 | swapping a and b exchanges the two end moments and negates them |
| StiffElement.ElementCounter.constructor | TStiffElement.py:38 | the class counter starts at 0 |
| StiffElement.ElementCounter.IncrementCounter | TStiffElement.py:116-118 | the counter grows by exactly one |
| StiffElement.CheckValues | TStiffElement.py:140-154 | a load is rejected iff it is a uniform load longer than the element or a nodal force with a + b greater than the element's length; every other load is accepted |
| StiffElement.CheckValuesMonotone | TStiffElement.py:140-154 | a load accepted on an element is accepted on every longer element |
| StiffElement.CheckValuesExactFit | TStiffElement.py:146-153 | a load spanning exactly the element's length is accepted |
| StiffElement.Zeros | TStiffElement.py:55-56 | a vector of n zeros |
| StiffElement.VecAdd | TStiffElement.py:165 | numpy's `+=`: entry by entry sum, same length |
| StiffElement.Superpose | TStiffElement.py:160-165 | superposing loads into a six-vector keeps six entries |
| StiffElement.SuperposeConcat | TStiffElement.py:160-165 | superposing two batches one after the other is superposing their concatenation |
| StiffElement.SuperposeEquilibrium | TStiffElement.py:156-165 | superposing built loads leaves the axial entries alone and adds the total transverse load to the sum of the two shears |
| StiffElement.View | TStiffElement.py:170-176 | what the gathering reads of a node: the contents of its DoF list and its hinge flag |
| StiffElement.Views | TStiffElement.py:170 | the views of the nodes, place by place |
| StiffElement.NodeEquations | TStiffElement.py:171-176 | a hinged second node gives DoF[:3], a hinged first node DoF[0], DoF[1], DoF[3], any other node its whole list; each entry is read from the slot SlotOf names |
| StiffElement.Gather | TStiffElement.py:167-179 | the element's equation list: the NodeEquations of its nodes, node by node (see GatherMembers, GatherPair and GetElementEquations) |
| StiffElement.GatherMembers | TStiffElement.py:167-179 | every gathered equation is an entry of the DoF list of one of the nodes gathered so far |
| StiffElement.GatherPair | TStiffElement.py:167-179 | two 3-slot nodes, or hinged 4-slot ones, gather six equations: the first node's and then the second node's |
| StiffElement.GatherPairSelects | TStiffElement.py:167-179 | each of the six gathered equations is an entry of one of the two DoF lists, each read from a different place, so distinct DoF entries give six distinct equations |
| StiffElement.TrussStiffness | TStiffElement.py:206-213 | the axial stiffness matrix is 6×6 |
| StiffElement.BeamStiffness | TStiffElement.py:215-222 | the bending stiffness matrix is 6×6 |
| StiffElement.LocalStiffness | TStiffElement.py:224 | kloc = truss + beam is 6×6 |
| StiffElement.LocalStiffnessSymmetric | TStiffElement.py:206-224 | kloc is symmetric |
| StiffElement.LocalStiffnessWrittenOut | TStiffElement.py:206-224 | kloc is the sum of the two literals, entry by entry |
| StiffElement.LocalStiffnessRigidBody | TStiffElement.py:206-224 | kloc maps the three rigid-body motions (axial translation, transverse translation, rotation about the first node) to zero end forces |
| StiffElement.RotationMatrix | TStiffElement.py:189-196 | the rotation matrix of direction cosines lx, ly is 6×6 |
| StiffElement.Congruence | TStiffElement.py:226 | Rt·k·R is 6×6, and symmetric whenever k is |
| StiffElement.HorizontalRotationIsIdentity | TStiffElement.py:186-196 | lx = 1, ly = 0 gives the identity |
| StiffElement.IdentityCongruence | TStiffElement.py:226 | with the identity as rotation, kel == kloc |
| StiffElement.RotationOrthogonal | TStiffElement.py:186-196 | with lx² + ly² = 1 the rotation matrix is orthogonal: Rt·R is the identity |
| StiffElement.RotationColumnsDot | TStiffElement.py:189-196 | two columns of the rotation matrix are orthonormal when lx² + ly² = 1 |
| StiffElement.Element.constructor | TStiffElement.py:51-58 | a new element takes the counter's value as its index and advances the counter by one; fel and uel are zero 6-vectors, and the rotation and stiffness matrices are zero 6×6 matrices |
| StiffElement.Element.ApplyLoads | TStiffElement.py:156-165 | when every load passes the check, fel becomes old fel plus every load's vector, in order. Otherwise it stops at the first failing load, with exactly the loads before it added |
| StiffElement.Element.GetElementEquations | TStiffElement.py:167-179 | the list built in the loop is the node-by-node concatenation Gather of the nodes' equations |
| StiffElement.Element.NodeEquationList | TStiffElement.py:171-176 | one node's part of the list is its NodeEquations at its position |
| StiffElement.Element.Rotate | TStiffElement.py:181-196 | the rotation matrix becomes RotationMatrix(lx, ly) and nothing else changes |
| StiffElement.Element.CalcStiff | TStiffElement.py:198-226 | kel becomes Rt·kloc·R with EA = E·area and EI = E·inertia, and kel is symmetric |
| Matrices.Zero | TStiffElement.py:57-58 | the 6×6 zero matrix |
| Matrices.Transpose | TStiffElement.py:226 | np.transpose: entry (i, j) is entry (j, i) |
| Matrices.Add | TStiffElement.py:224 | numpy's `+` on matrices: entrywise sum |
| Matrices.MatMul | TStiffElement.py:226 | numpy's `@`: entry (i, j) is row i times column j |
| Matrices.MatMulAssoc | TStiffElement.py:226 | the product is associative, so Rt·kloc·R does not depend on the grouping |
| Matrices.TransposeMatMul | TStiffElement.py:226 | the transpose of a product is the product of the transposes in reverse order |
| Matrices.CongruenceSymmetric | TStiffElement.py:226 | Rt·K·R is symmetric for every symmetric K and every R |
| Matrices.MatMulIdentity | TStiffElement.py:226 | the identity is neutral on either side |
| Matrices.SymmetricTranspose | TStiffElement.py:226 | a matrix is symmetric iff it equals its transpose |
| Matrices.TransposeTranspose | TStiffElement.py:226 | transposing twice gives the matrix back |
| NodeDiscovery.AppendNew | TStiffAnalysis.py:87-90 | the collection keeps the starting list and appends at most one entry per node met, so the result is at least as long as the starting list and at most that plus the number of nodes met |
| NodeDiscovery.AppendNewConcat | TStiffAnalysis.py:87-88 | collecting element after element is collecting from their nodes concatenated |
| NodeDiscovery.Dedup | TStiffAnalysis.py:82-90 | the collected list is never longer than the walk over the elements' nodes |
| NodeDiscovery.AppendNewStep | TStiffAnalysis.py:88-90 | one more node is appended exactly when it is not yet in the list |
| NodeDiscovery.AppendNewMembers | TStiffAnalysis.py:82-90 | a node is in the result iff it was in the starting list or is a node of an element: nothing lost, nothing invented |
| NodeDiscovery.AppendNewPrefix | TStiffAnalysis.py:87-90 | the collection only appends: the starting list is a prefix of the result |
| NodeDiscovery.AppendNewDistinct | TStiffAnalysis.py:89-90 | starting from a list without repetitions, the result has none |
| NodeDiscovery.DedupMembers | TStiffAnalysis.py:82-90 | the collected list holds exactly the elements' nodes, each once |
| NodeDiscovery.DedupOrder | TStiffAnalysis.py:82-90 | the collected list is in order of first appearance |
| Numbering.FreeSlots | TStiffAnalysis.py:114 | the free pass's table: Free gives slots 0, 1, 2; RollerX 0, 2; RollerY 1, 2; Pinned 2; Fixed has no entry and gets none (what the table guarantees is stated by TablesComplement) |
| Numbering.ConstrainedSlots | TStiffAnalysis.py:137 | the constrained pass's table: RollerX gives slot 1; RollerY 0; Pinned 0, 1; Fixed 0, 1, 2; Free has no entry and gets none |
| Numbering.FreePass | TStiffAnalysis.py:116-131 | one node's slots in the order the free pass writes them: its table entry, then slot 3 when hinged (see PassesPartition) |
| Numbering.ConstrainedPass | TStiffAnalysis.py:139-150 | one node's slots in the order the constrained pass writes them: its table entry (see PassesPartition) |
| Numbering.TablesComplement | TStiffAnalysis.py:114-137 | for every support the two tables (FreeSlots, ConstrainedSlots; Fixed has no free entry and Free no constrained one) split the base slots {0, 1, 2}, each slot exactly once |
| Numbering.PassesPartition | TStiffAnalysis.py:110-150 | a node's free slots (FreePass: its table entry, then slot 3 when hinged) and its constrained slots (ConstrainedPass) are disjoint, without repetition, and together are exactly its 3 or 4 slots; slot 3 is numbered by the free pass exactly when the node is hinged, and never by the constrained pass |
| Numbering.FreeBlocks | TStiffAnalysis.py:116-131 | the free pass's block of each node is that node's free slots |
| Numbering.ConstrainedBlocks | TStiffAnalysis.py:139-150 | the constrained pass's block of each node is that node's constrained slots |
| Numbering.Offsets | TStiffAnalysis.py:116-131 | the counts handed out before each block start at zero |
| Numbering.Before | TStiffAnalysis.py:102-108 | the running counter of set_node_DoF before block j: the lengths of the earlier blocks added up (its steps are stated by BeforeStep and BeforeMonotone) |
| Numbering.Start | TStiffAnalysis.py:102-108 | the counter value at which block j starts when the pass starts counting at c |
| Numbering.Len | TStiffAnalysis.py:97-100 | the number of indices a whole pass hands out: the counter after its last block |
| Numbering.Pos | TStiffAnalysis.py:106-108 | the index set_node_DoF writes into slot s of block j: the count before the block plus the slot's place in it (see PosBound, PosInjective, Locate) |
| Numbering.BeforeStep | TStiffAnalysis.py:102-108 | numbering one more block advances the counter by its length |
| Numbering.BeforeMonotone | TStiffAnalysis.py:102-108 | the counter never goes back across blocks |
| Numbering.PosBound | TStiffAnalysis.py:102-108 | an index handed out while numbering a block lies within that block's range |
| Numbering.PosInjective | TStiffAnalysis.py:102-108 | two slots given the same index by one pass are the same slot of the same node |
| Numbering.Locate | TStiffAnalysis.py:102-108 | every index a pass hands out belongs to some slot |
| Numbering.Number | TStiffAnalysis.py:97-100 | the index a slot holds after both passes from a zero counter: its place in the free pass, or the free count plus its place in the constrained pass (its range is stated by NumberBound, its injectivity by NumberInjective) |
| Numbering.NumberBound | TStiffAnalysis.py:92-100 | a slot's final index is below the total, and below the free count exactly when the slot is free |
| Numbering.NumberInjective | TStiffAnalysis.py:92-150 | two slots receiving the same final index are the same slot of the same node |
| Numbering.Owner | TStiffAnalysis.py:92-150 | every index below the total is the final index of some slot |
| Numbering.BlocksDistinct | TStiffAnalysis.py:114-137 | no block lists a slot twice |
| Numbering.Numbers | TStiffAnalysis.py:92-150 | a node's final indices come one per slot |
| Numbering.NumbersBound | TStiffAnalysis.py:92-150 | every final index of a node is in [0, total) |
| Numbering.NumbersApart | TStiffAnalysis.py:92-150 | equal final indices belong to the same slot of the same node |
| Numbering.NumbersPair | TStiffAnalysis.py:92-150 | the final indices of two different nodes, one after the other, are all distinct and all in [0, total) |
| Numbering.BeforeCount | TStiffAnalysis.py:110-150 | before node n, the two passes together hand out three indices per node and one per hinged node |
| Numbering.EquationCount | TStiffAnalysis.py:97-100 | the counter after both passes is 3 per node plus 1 per hinged node |
| Numbering.Hinges | TStiffAnalysis.py:129-131 | the number of hinged nodes is at most the number of nodes |
| Numbering.WriteSlots | TStiffAnalysis.py:106-108 | writing a run of indices into a DoF list keeps its length |
| Numbering.WriteSlotsSpec | TStiffAnalysis.py:102-108 | after writing c, c+1, ... into distinct slots, the k-th slot holds c + k and every other slot is as it was |
| Numbering.WriteSlotsConcat | TStiffAnalysis.py:117-131 | writing the table's slots and then the hinge slot is writing their concatenation, with the counter carried over |
| Numbering.FreeWrite | TStiffAnalysis.py:116-131 | the free pass keeps the DoF list's length |
| Numbering.ConstrainedWrite | TStiffAnalysis.py:139-150 | the constrained pass keeps the DoF list's length |
| Numbering.BothPasses | TStiffAnalysis.py:97-100 | both passes keep the DoF list's length |
| Numbering.BothPassesSlot | TStiffAnalysis.py:97-100 | after both passes a slot holds its own pass's start plus its place in that pass |
| Numbering.NumberedDof | TStiffAnalysis.py:97-100 | a node's DoF list after both passes of the whole list keeps its length |
| Numbering.NumberedDofSlots | TStiffAnalysis.py:97-100 | after both passes, each slot holds the starting counter plus its Number |
| Numbering.NumberedDofSlot | TStiffAnalysis.py:97-100 | the same as NumberedDofSlots, for a single slot |
| Numbering.PassesCompose | TStiffAnalysis.py:97-100 | a constrained pass that starts where the free pass left the counter, applied to the free pass's result, gives the numbering of both passes |
| Numbering.NumberCases | TStiffAnalysis.py:97-100 | a free slot is numbered by the free pass, any other slot after all free slots by the constrained pass |
| Numbering.TwoWrites | TStiffAnalysis.py:97-100 | with two rounds of writes into disjoint slot lists, each slot keeps the index of its own round |
| StiffAnalysis.Flatten | TStiffAnalysis.py:87-88 | the nodes the double loop meets, element by element and in each element's order (what it holds is stated by FlattenMembers) |
| StiffAnalysis.FlattenMembers | TStiffAnalysis.py:87-88 | a node is met by the walk iff it is an end node of some element |
| StiffAnalysis.Kinds | TStiffAnalysis.py:116-150 | the passes read each node's support type and hinge flag, in list order |
| StiffAnalysis.DofLists | TStiffAnalysis.py:107 | the DoF lists the passes write into, one per node |
| StiffAnalysis.Fits | TStiffAnalysis.py:102-131 | every node's DoF list has one slot per base equation, plus slot 3 when hinged: the slots the passes write into exist |
| StiffAnalysis.SeparateDoF | TStiffAnalysis.py:102-108 | no DoF list object is shared by two different nodes, so each write lands in one node only |
| StiffAnalysis.DedupKeeps | TStiffAnalysis.py:82-90 | the collected list keeps fitting DoF lists, no two of them shared, and no DoF list that was not there already |
| StiffAnalysis.Analysis.constructor | TStiffAnalysis.py:33-38 | the node list is the first-appearance list of the elements' nodes; the numbering holds (Numbered: the counters are those of the passes and every slot holds its Number); FG and UG are two different fresh zero vectors of length numberEquations; KG is a fresh zero numberEquations × numberEquations matrix (ZeroGlobals) |
| StiffAnalysis.Analysis.Setup | TStiffAnalysis.py:34-38 | the constructor's steps after the fields are initialised, with the same outcome |
| StiffAnalysis.Analysis.Numbered | TStiffAnalysis.py:92-150 | the state find_equations leaves from a zero counter: numberFreeEquations is the free pass's count, numberEquations the total, and every slot of every node holds its Number |
| StiffAnalysis.Analysis.ZeroGlobals | TStiffAnalysis.py:36-38 | FG and UG are two distinct zero vectors of length numberEquations; KG is a zero square matrix of that size |
| StiffAnalysis.Analysis.NumberedSlot | TStiffAnalysis.py:92-150 | after the numbering every slot of a DoF list is numbered, with its Number |
| StiffAnalysis.Analysis.NumberingInRange | TStiffAnalysis.py:92-150 | every DoF entry is in [0, numberEquations), and below numberFreeEquations exactly for a free slot; numberEquations is 3 per node plus 1 per hinged node |
| StiffAnalysis.Analysis.NumberingInjective | TStiffAnalysis.py:92-150 | two DoF entries that are equal are the same slot of the same node |
| StiffAnalysis.Analysis.NumberingCovers | TStiffAnalysis.py:92-150 | every index in [0, numberEquations) is held by some slot |
| StiffAnalysis.Analysis.ElementEquationsNumbered | TStiffElement.py:167-179 | an element with two different collected end nodes gathers six distinct equations, all below numberEquations |
| StiffAnalysis.Analysis.DofNumbers | TStiffAnalysis.py:92-150 | a numbered node's DoF list is its Numbers |
| StiffAnalysis.Analysis.NumberedKept | TStiffAnalysis.py:36-38 | the numbering survives any change that leaves the node list, the counters and the DoF lists alone |
| StiffAnalysis.Analysis.AllocateGlobals | TStiffAnalysis.py:36-38 | FG and UG become fresh zero vectors of length numberEquations and KG a fresh zero square matrix of that size; the numbering is kept |
| StiffAnalysis.Analysis.CollectNodes | TStiffAnalysis.py:34 | from an empty list, the node list becomes the first-appearance list of the elements' nodes |
| StiffAnalysis.Analysis.NumberFromZero | TStiffAnalysis.py:35 | both passes, with the counter starting at 0, leave the numbering in place |
| StiffAnalysis.Analysis.AddNodes | TStiffAnalysis.py:88-90 | one element's nodes are appended in order, each unless that very node is listed already |
| StiffAnalysis.Analysis.Zeros | TStiffAnalysis.py:36-37 | np.zeros: a fresh vector of n zeros |
| StiffAnalysis.Analysis.ZeroMatrix | TStiffAnalysis.py:38 | np.zeros((n, n)): a fresh n × n zero matrix |
| StiffAnalysis.Analysis.FindNodes | TStiffAnalysis.py:82-90 | every end node of every element, in order, is appended unless that very node is listed already |
| StiffAnalysis.Analysis.SetNodeDoF | TStiffAnalysis.py:102-108 | writes c, c+1, ... into the given slots in order and advances the counter by their number; nothing else changes |
| StiffAnalysis.Analysis.NumberFreeSlots | TStiffAnalysis.py:117-131 | one node in the free pass: its support's free slots, then slot 3 if hinged, numbered from the counter |
| StiffAnalysis.Analysis.CalcFreeEquations | TStiffAnalysis.py:110-131 | each node gets its free slots numbered from the free pass's starting point for it, and the counter advances by the total number of free slots |
| StiffAnalysis.Analysis.NumberConstrainedSlots | TStiffAnalysis.py:140-150 | one node in the constrained pass: its support's constrained slots, numbered from the counter |
| StiffAnalysis.Analysis.CalcConstrainedEquations | TStiffAnalysis.py:133-150 | each node gets its constrained slots numbered from the constrained pass's starting point for it, and the counter advances by the total number of constrained slots |
| StiffAnalysis.Analysis.FindEquations | TStiffAnalysis.py:92-100 | numberFreeEquations is the counter after the free pass, and numberEquations that plus the constrained total; each DoF list is its both-pass numbering from the starting counter |

## Left out

- I/O: `print` and the messages it prints are left out. `sys.exit` (TStiffLoad.py:73-74)
  is modelled as a `Failure`. `DebugStop` (TStiffElement.py:163) is modelled as the
  `Aborted` outcome of `ApplyLoads`. The `tpanic` module is not part of this model.
- `Distance` and `Angle` (TStiffElement.py:124-138) need a square root and an arcsin.
  The element's length is a given positive real instead. The direction cosines
  lx = cos(angle) and ly = sin(angle) are parameters of `Rotate`, and the lemmas about
  them assume lx² + ly² = 1.
- `math.pi` is a parameter of the section functions. Nothing numeric is claimed about it.
- numpy arithmetic is modelled as exact real arithmetic, not floating point. Arrays are
  `seq<real>`; 6×6 matrices are sequences of rows. The global FG, UG and KG are Dafny arrays.
- `Run` (TStiffAnalysis.py:152-153) is an empty stub and has no counterpart. The
  entry script MainStiffness.py is not part of this model.
- The property setters of TStiffMech.py (33, 38, 43) recurse forever, and the
  `load_type` setter (TStiffLoad.py:43-44) writes an unrelated field. Only construction
  and the getters are modelled: the getters are the fields of `Material` and `Load`.
- The section's setters of `section_type`, `area` and `inertia` (TStiffGeo.py:39-50)
  are not modelled. `Section` is an immutable datatype, built once by `NewSection`.
  Replacing its area or inertia afterwards would leave a stiffness computed from the
  old values, and the model does not capture that.
- The getters of the element and of the analysis are their fields. The setters of
  `fel`, `uel`, `kel` and `rotation_matrix` (TStiffElement.py:90-106) are the field
  assignments the methods make, and likewise the analysis setters (TStiffAnalysis.py:51-77).
- The setters of the element's `nodes`, `mechanical_prop`, `geometric_prop`, `length`
  and `index` (TStiffElement.py:65-66, 70-71, 75-76, 80-81, 110-111) and of the
  analysis's `elements` (TStiffAnalysis.py:46-47) are not modelled. Those fields are
  `const`, fixed at construction. Replacing them afterwards would make the stored length,
  rotation, stiffness and numbering stale, and the model does not capture that.
- The import defect is not modelled: TStiffAnalysis.py uses `np` without importing it.
  Likewise the empty-tuple default of `_load_type` (TStiffLoad.py:32); a load always
  has a descriptor here.
- Section and load descriptors are datatypes, not string-keyed dictionaries. A missing
  dictionary key (a KeyError) cannot occur.
- StiffLoad.CalcReactionForces: a nodal force with a + b == 0 divides by zero. With
  Python floats that raises ZeroDivisionError. With numpy floats it gives inf or nan
  with a warning instead. Here it is the `ZeroSpan` failure, which yields no vector.
- StiffMech.NewMaterial: requires poisson != -1. In Python, poisson == -1 makes the
  division at TStiffMech.py:25 raise ZeroDivisionError. That error path is not modelled.
- StiffAnalysis.Analysis.constructor: requires every collected node to have a DoF list
  of exactly 3 slots, or 4 when hinged (`Fits`), and no DoF list shared by two different
  nodes (`SeparateDoF`).
  - In Python, a shorter list raises IndexError.
  - A longer list would leave its extra slots unwritten.
  - A list shared between nodes would be overwritten by both of them.
  - None of these is modelled.
- StiffAnalysis.Analysis.FindEquations, CalcFreeEquations, CalcConstrainedEquations:
  require the same `Fits` and distinct DoF lists (`Disjoint`) of the already collected
  list, for the same reason.
- StiffAnalysis.Analysis.SetNodeDoF: takes the slot list as `seq<nat>`, with every slot
  inside the DoF list. Python's negative list indices and IndexError are not modelled.
  `WriteSlots` skips a slot past the end, which the numbering never produces.
- StiffAnalysis.Analysis.FindEquations: states the new DoF contents node by node, as
  NumberedDof of the old contents. It does not state them as one expression over the
  whole list.
- StiffElement.Element.GetElementEquations: requires a hinged first node to have a fourth
  slot. Python would raise IndexError at `node.DoF[3]`.
- StiffElement.Element.ApplyLoads: requires every load to carry a six-component vector,
  which every load built by `NewLoad` does.
- StiffElement.Element.CalcStiff: requires the section's area and inertia to be present.
  In Python an unrecognised section would make `E*None` raise a TypeError.
- StiffElement.Element.constructor: requires exactly two nodes and a positive length.
  These error paths are not modelled:
  - With any other number of nodes, the unpacking at TStiffElement.py:128 and 135
    raises ValueError.
  - With coincident nodes the length is 0, and the arcsin argument at line 138
    divides by zero.
- StiffElement.Element.Rotate: lx and ly are free parameters. In the program the angle
  is an arcsin (TStiffElement.py:138), so it lies in [-π/2, π/2]. Then lx = cos(angle)
  at line 186 is never negative: an element whose second node lies left of its first
  gets the rotation of the mirrored direction. The model does not restrict lx to the
  values the program produces.
- StiffElement.Element.constructor: the class-level counter is an `ElementCounter`
  object passed to the constructor. It is not a global.
- The element's `fel`, `uel`, `kel` and `rotation_matrix` are `seq` values, and so is
  the analysis's `nodesList` (a `seq<Node>` of node references). A second reference
  to one of those numpy arrays or lists is not modelled. So another holder of `fel`
  would not see the in-place `+=` at TStiffElement.py:165, and another holder of
  `nodes_list` would not see the `append` at TStiffAnalysis.py:90. A node's DoF list,
  by contrast, is a shared `array<int>`: the numbering writes through it, and every
  holder of that array sees the indices. Two different nodes sharing one DoF list
  object are excluded by the constructor's `SeparateDoF` requirement (see above).
