# A verified model of the Quon compiler's middle

Quon compiles a quantum language: a front end parses and desugars a program, a partial evaluator
unrolls its circuits into flat lists of placed gates, and the lists are lowered to SSA, walked,
measured and checked against hardware. This project models the parts of that pipeline whose
correctness is easy to break and hard to see, and proves what they promise. Check it with
`dafny verify dfyconfig.toml`.

## What is modelled

- **Classical evaluation and circuit elaboration** (`Classical`, `ClassicalLaws`, `ClassicalMeaning`,
  `CircuitForms`, `Elaborate`, `ElaborateLaws`, `Elaborator`, `Juxtaposition`). `Elaborate` is the elaborator as functions of the expression, the bindings, the fuel
  and the set of functions being inlined, branch by branch and error by error, with 64-bit overflow and
  saturation written out. `Elaborator.Machine` is the same as a machine with mutable fuel and a
  mutable guard set, proved to compute exactly those functions and to restore the guard on every exit.
- **What elaboration means** (`Meaning`, `MeaningProof`, `RunLaws`, `WireLaws`, `GateTreeLaws`). A
  direct denotation of source circuits, over any model of what one placed gate does to a state, without
  the elaborator's accumulators, sentinel and guard. Outside `controlled` it knows no gate tree either.
  Under `controlled` it follows the parts of the body; a call there is controlled gate by gate, the gates
  being those it elaborates to on its own.
- **Control and the exact gates** (`Phase`, `PhaseLaws`, `Control`, `Gadgets`, `ControlBody`,
  `ControlProof`, `ControlMeaning`, `ControlLimits`). The gates that permute basis states and turn their
  phase, with phases counted in turns modulo one: exact, no floating point.
- **The gates that mix basis states** (`Amplitudes`, `MixedControl`). An exact amplitude semantics over
  complex pairs of reals and any functions that obey the laws of the circle functions.
- **Scope** (`EnvLaws`, `NameLaws`, `ScopeLaws`, `ParScope`, `ControlScope`, `SubstLaws`). Which bindings
  elaboration can see, and what substitution keeps.
- **SSA wires** (`Ssa`, `Threading`, `GateSpecs`, `Lowering`, `LoweringMeaning`, `BorrowedWires`,
  `CircExtract`, `CircLaws`, `DynamicWalk`, `WalkLaws`, `WalkWires`, `WalkRefinement`, `RegionYields`). Blocks are lists of operations over value ids; the wire tracker,
  lowering, extract, rebuild and the walk over nested regions are methods that update it, each proved
  against a function.
- **Connectivity, depth and the hardware check** (`Connectivity`, `Depth`, `ParDepth`, `Hardware`).
  Floyd-Warshall runs in place on a two-dimensional array.
- **Parser and printer, on tokens** (`Tokens`, `NatGrammar`, `PatGrammar`, `TypeGrammar`,
  `TypeRoundTrip`, `TypeImage`, `TypeLean`, `ExprLean`, `ExprGrammar`, `ExprPrinter`, `ExprLadder`, `ExprParts`, `StmtStart`,
  `ExprRoundTrip`, `ExprImage`, `ExprReread`). The combinator grammar as recursive descent with ordered
  choice, and the printer as a function to tokens.
- **Desugaring and the comment scanners** (`Desugar`, `DesugarLaws`, `DesugarMeaning`, `Comments`).

The gate registry is an abstract table of arities and inverses; where a proof needs more of it, the
precondition (`Lawful`, `ListsPhaseGates`) says what, and `ControlProof.SomeRegistryIsSound` shows
that such a table exists. The floating-point primitives `sqrt`, `powf` and division by zero, and the
value of pi, are parameters.

## Model

| member | source | states |
|---|---|---|
| ClassicalLaws.EvalIsVal | frontend/src/elaborate.rs:173-278 | for any fuel, `eval_classical` gives the fuel-free value or error of the expression, or stops because the fuel ran out; nothing else |
| ClassicalLaws.EvalMono | frontend/src/elaborate.rs:173-178 | a value computed with some fuel is computed with any more, and exactly the extra is left over |
| ClassicalLaws.EvalEnough | frontend/src/elaborate.rs:173-278 | a bound read off the expression alone suffices: with that much fuel the evaluator never runs dry |
| ClassicalLaws.PairsListsEachPairOnce | frontend/src/elaborate.rs:343-357 | for every n, `pairs(n)` lists each i < j below n exactly once, n(n-1)/2 in all |
| ClassicalMeaning.IntegersAreExact | frontend/src/elaborate.rs:285-318 | integer arithmetic gives the exact result (what subtraction undoes, the quotient rounded toward zero, the product of the copies of a power) if it is a 64-bit integer, an overflow otherwise, and the errors of division by zero, of a negative exponent and of one past 32 bits |
| ClassicalMeaning.NegationIsExact | frontend/src/elaborate.rs:195-204 | negation gives what adds up to zero, and an overflow exactly for the least 64-bit integer |
| ClassicalMeaning.RealsAreExact | frontend/src/elaborate.rs:319-333 | as soon as one operand is real, the operation is exact on reals, an integer operand standing for its real |
| ClassicalMeaning.RoundsToNearest | frontend/src/elaborate.rs:366-371 | `round` gives a nearest integer, the one further from zero at a tie, and the bound on that side past 64 bits |
| ClassicalMeaning.NamesMean | frontend/src/elaborate.rs:184-194 | a bound name has its value even where it is a constant's, an unbound one is `PI`, `TAU` (twice `PI`), `E` or an error |
| ClassicalMeaning.RangeLists | frontend/src/elaborate.rs:337-342 | `range(n)` lists 0 to n-1 in order, and nothing for a negative n |
| ClassicalMeaning.PatternBinds | frontend/src/elaborate.rs:379-415 | a pattern binds each of its names, at any depth, to the part of the value that stands where the name does, the last one if a name is repeated, and nothing else; it fails exactly on values of another shape |
| ClassicalMeaning.FirstArmRuns | frontend/src/elaborate.rs:235-266 | a classical `match` runs the first arm that accepts the value, with the value bound to its name if the arm is a name; a tuple pattern before it, or no such arm, is an error |
| MeaningProof.ElaborationPreservesMeaning | frontend/src/elaborate.rs:421-611 | the placed gates of a successful elaboration, run forwards or backwards, at any wire offset and in any gate model whose undo agrees with the registry's inverses, act as the source expression denotes, for every expression, binding, fuel and guard, a parameter of a call denoting the argument in its place, as long as the run takes no boolean arm and no call in a `par` arm or under `controlled` sees its caller's bindings; a controlled call denotes the control of the gates the call has on its own |
| MeaningProof.ParamsBound | frontend/src/elaborate.rs:895-905 | a call binds each parameter the argument in its place, the last one if a name is repeated, and no other name |
| MeaningProof.NatsBound | frontend/src/elaborate.rs:1106-1113 | the declared width of a call may read, for each name, the last natural argument in its place, and nothing else |
| Juxtaposition.PlacedWithAt | frontend/src/elaborate.rs:523-563 | `g @ q` and `g(a) @ q` place that gate, with its substituted angle, on the substituted target, and nothing else |
| Juxtaposition.PlainJuxtaposed | frontend/src/elaborate.rs:801-816 | `g q` is `g @ q` |
| Juxtaposition.RotationJuxtaposed | frontend/src/elaborate.rs:787-800 | `g a q` is `g(a) @ q` if and only if the rotation stands on one qubit, and is left an unplaced application otherwise |
| Juxtaposition.RzzPlaced | frontend/src/elaborate.rs:530-541 | a placed `Rzz(a)` elaborates to gates that turn states whose two bits are equal back by half the angle and the others on by it, and change no bit |
| ControlScope.ControlMeans | frontend/src/elaborate.rs:1447-1595 | the decomposition of a `controlled` body, accumulators, fuel and slices of the target included, acts as the denotation of its control: its parts one after the other, undone under `adjoint`, copies and arms on their slices, and each call controlled as it is on its own, provided no call in the body sees its caller's bindings |
| SubstLaws.SubstKeepsVal | frontend/src/elaborate.rs:987-1065 | given fuel enough for its probe, substitution leaves an expression with a value exactly when it had one, and with the same value under any bindings |
| MeaningProof.CircuitArmIff | frontend/src/elaborate.rs:475-504 | the circuit-level rule takes the arm the value selects exactly when that arm is not a boolean literal |
| MeaningProof.MatchMeansIff | frontend/src/elaborate.rs:475-504 | the elaboration of a `match` acts as the match denotes exactly when an arm is selected and it denotes what the arm taken denotes; so it is wrong whenever the two differ |
| MeaningProof.BoolArmIsPassedOver | frontend/src/elaborate.rs:484 | `match true { true => X @ 0, _ => H @ 0 }` elaborates to what `H @ 0` elaborates to, though its value selects `X @ 0` |
| ElaborateLaws.ElabStable | frontend/src/elaborate.rs:421-427 | a successful elaboration is unchanged, tree and spent fuel, by any larger starting fuel and any smaller guard set |
| Elaborator.Machine.ElaborateBody | frontend/src/elaborate.rs:421-611 | the machine with mutable fuel and guard gives exactly the specified tree or error and the specified remaining fuel, and leaves the guard as it found it, on errors too |
| Elaborator.Machine.InliningIsBounded | frontend/src/elaborate.rs:927-945 | in every state the machine can reach, inlined calls are never nested deeper than there are recorded functions |
| Elaborator.Machine.UnrollPar | frontend/src/elaborate.rs:717-743 | the `par { c } * k` loop computes the specified composition of shifted copies, errors, fuel and guard included |
| Elaborator.Machine.UnrollParN | frontend/src/elaborate.rs:748-768 | the same for `par { c1, c2, … }` and its running offset |
| Elaborator.Machine.DecomposeControlled | frontend/src/elaborate.rs:1447-1595 | the same for the recursive control decomposition |
| Elaborator.ReverseInvert | frontend/src/specialized_circuit.rs:289-338 | the backward loop over the placements computes `ReverseAndInvert`, error cases included |
| EnvLaws.EvalSame | frontend/src/elaborate.rs:173-278 | evaluation reads a binding only if the expression mentions its name: bindings that agree on the mentioned names give the same value, error and fuel |
| EnvLaws.SubstSame | frontend/src/elaborate.rs:987-1065 | so does substitution, and what it leaves behind mentions no new name |
| ScopeLaws.ElabSame | frontend/src/elaborate.rs:421-611 | elaboration, control and `par` included, gives the same tree, error and fuel under any two bindings that agree on the names the expression and the functions it reaches mention |
| ParScope.ParBodyIsCall | frontend/src/elaborate.rs:685-710 | if the caller binds no name that the callee or a function it reaches mentions, a call in an arm of `par` elaborates exactly as a plain call, for every body, fuel and guard |
| ParScope.AlikeIffNotShadowed | frontend/src/elaborate.rs:685-710 | for a body `g(x) @ y` the two calls agree if and only if the caller shadows none of g, x and y |
| ParScope.ParSeesCallersPi | frontend/src/elaborate.rs:927-945 | with `PI` rebound by the caller, `par { f() }` turns by the caller's number and `f()` by pi |
| ControlScope.ControlOfCallIsOwn | frontend/src/elaborate.rs:1416-1430 | if the caller binds no name that the callee or a function it reaches mentions, `controlled` of a zero-argument call gives the gates, fuel and errors of `controlled` of the call under no bindings, for every body, control, target, fuel and guard |
| ControlLimits.CalleeAlikeIffNotShadowed | frontend/src/elaborate.rs:1416-1430 | for a body `g(x) @ y` the callee elaborates under `controlled` as a plain call does if and only if the caller shadows none of g, x and y |
| ControlLimits.ControlSeesCallersPi | frontend/src/elaborate.rs:1426 | with `PI` rebound by the caller, `controlled(f())` of a function `Rz(PI) @ q` is the gadget for the caller's number; on its own it is the gadget for pi |
| ControlLimits.ControlReadsLeftovers | frontend/src/elaborate.rs:1459-1461 | a call that elaborates to `Rz(x) @ q` is controlled by the caller's number for x, and refused when the caller has none |
| GateTreeLaws.EmptyIffNoGates | frontend/src/elaborate.rs:1070-1076 | an elaborated tree is the empty sentinel exactly when it places nothing, and `count_gates` is the number of its placements |
| GateTreeLaws.AdjointNeverOfEmpty | frontend/src/specialized_circuit.rs:289-338 | on an elaborated tree `reverse_and_invert` never reaches its empty-circuit error, and succeeds exactly when every leaf is a placed gate that has an inverse |
| RunLaws.MaxIndexIsMaximum | frontend/src/specialized_circuit.rs:351-368 | `max_qubit_index` is the largest literal index placed, and absent exactly when none is |
| GateTreeLaws.AdjointUndoes | frontend/src/specialized_circuit.rs:289-338 | running a tree and then its adjoint is the identity on every state, in every model whose undo undoes |
| GateTreeLaws.AdjointOfCompose | frontend/src/specialized_circuit.rs:289-338 | the adjoint of a composition lists the adjoint of the second part and then that of the first |
| GateTreeLaws.AdjointTwice | frontend/src/specialized_circuit.rs:289-338 | on gates under canonical names the adjoint of the adjoint places the gates of the tree |
| GateTreeLaws.AdjointOfShifted | frontend/src/elaborate.rs:1131-1168 | adjoint commutes with moving a tree along the register |
| WireLaws.ParArmsCommute | frontend/src/elaborate.rs:748-768 | an arm of `par` and whatever is placed past it may run in either order, in every model where gates on disjoint wires commute |
| WireLaws.SwapReverseReverses | frontend/src/elaborate.rs:867-893 | for every n, `swap_reverse(n)` moves the content of wire i to wire n-1-i, and doing it twice moves nothing |
| PhaseLaws.PhaseIsLocal | frontend/src/elaborate.rs:748-768 | in the exact phase semantics gates on disjoint wires commute, so it is a model in which `par` arms do |
| PhaseLaws.PhaseCancels | frontend/src/specialized_circuit.rs:289-338 | in the exact phase semantics the undo of each gate undoes it, so it is a model in which a circuit followed by its adjoint does nothing |
| Phase.PhaseInverses | frontend/src/specialized_circuit.rs:238-243 | in the exact phase semantics the registry's inverse of every modelled gate undoes it, up to whole turns |
| Gadgets.RzzIsExact | frontend/src/elaborate.rs:1372-1377 | the CNOT, Rz, CNOT gadget turns states whose two bits are equal back by half the angle and the others on by it, and changes no bit |
| Gadgets.FixedControls | frontend/src/elaborate.rs:1642-1703 | the gadgets for controlled I, X, Y, Z, S, T and their daggers do nothing while the control bit is clear and the gate while it is set, up to one stated phase for all states |
| Gadgets.RzControls | frontend/src/elaborate.rs:1737-1747 | the gadget for controlled `Rz` by a literal angle does so with no extra phase |
| Gadgets.TwistedControls | frontend/src/elaborate.rs:1737-1747 | rotate, flip, rotate back, flip: twice the rotation exactly when the control is set, for every angle and register |
| MixedControl.RotationsControlled | frontend/src/elaborate.rs:1718-1776 | in the exact amplitude semantics the gadgets for controlled Rx, Ry and Rz by any literal angle leave every amplitude alone where the control is clear and do the rotation where it is set |
| MixedControl.RootsControlled | frontend/src/elaborate.rs:1665-1717 | the gadget for controlled H does so too; those for controlled SX and its dagger do the gate where the control is set and multiply by an eighth of a turn besides |
| MixedControl.RootsAreTurned | frontend/src/elaborate.rs:1704-1717 | so of H, SX and its dagger, the gadget controls the gate up to one phase for all states if and only if the gate is H |
| Control.ControlsConcat | frontend/src/elaborate.rs:1465-1469 | controlling two sequences one after the other controls their concatenation, with the phases added |
| Control.ControlsAdjoint | frontend/src/elaborate.rs:1524-1530 | the adjoint of a controlled sequence controls the adjoint of the sequence, with the phase negated |
| ControlProof.ControlIsCorrect | frontend/src/elaborate.rs:1447-1595 | for bodies over I, X, Y, Z, S, T, their daggers and Rz under composition, blocks, adjoint, calls that do not see their caller's bindings and `par` of one-wire arms, the elaborated control does the body on the chosen target wires exactly when the control bit is set, up to one phase; the body of a call is the gates the call elaborates to on its own |
| ControlProof.ControlledStates | frontend/src/elaborate.rs:1447-1595 | the same on states: the identity while the control bit is clear, the body while it is set |
| ControlMeaning.ControlDenotesControl | frontend/src/elaborate.rs:1447-1595 | for every body of calls and fragment gates placed on wire 0, in sequence and undone, `controlled(body) @ (ctrl, wire)`, if it elaborates, denotes the denotation of its body on `wire` while bit `ctrl` is set and the identity while it is clear, up to one phase for all states |
| ControlMeaning.ControlledPlacement | frontend/src/elaborate.rs:543-555 | for every fragment body, blocks and `par` included, a placement on a tuple of a control and one or several targets, if it elaborates, denotes the body on the targets while the first bit named is set and the identity while it is clear, up to one phase for all states |
| ControlLimits.BodyIndexIsIgnored | frontend/src/elaborate.rs:1547-1590 | for every one-gate fragment body at index q, every control and every target start, controlling it acts as the gate on the wire the body asks for if and only if q is 0 or the gate is scalar (the identity, or a rotation by whole turns) |
| ControlLimits.NestedParOverlaps | frontend/src/elaborate.rs:1289-1302 | in `controlled(par { par { g } * k, h })` from a start index the two arms put gates on a common target wire if and only if k > 1 |
| Ssa.WireTracker.ObserveOperation | mlir_bridge/src/passes/qubit_wiring.rs:73-87 | results inherit the operands' roots by position, results made from nothing are new, and a count mismatch records nothing |
| Threading.LinearIffDistinct | frontend/src/lower.rs:941-982 | every argument and gate result of a lowered block is used exactly once if and only if no gate repeats a wire |
| Threading.CnotOnOneWire | frontend/src/lower.rs:941-982 | `CNOT @ (0, 0)` lowers to a gate that reads the one argument twice and leaves a result unused |
| Lowering.BorrowIffOutOfRange | frontend/src/lower.rs:984-1007 | a borrow is emitted if and only if some placement names a wire past the arguments |
| BorrowedWires.LoweringOnAnyWires | frontend/src/lower.rs:984-1007 | whatever wires the gates stand on, the block holds those gates in order on the arguments and on borrowed qubits, wire i past the arguments being the qubit borrowed i-th for every gate; it ends with the wires in that order, and the last qubit borrowed is one that some gate stands on |
| GateSpecs.PlacedAsAsked | frontend/src/lower.rs:1013-1051 | lowering places a list of gates if and only if each gate of the body asks for the one in its place: on the natural literals it writes, in order, under its head name, with no angle for a bare name and the literal of its first argument for a rotation, with the depth and class of its type |
| Lowering.Emitter.EmitSpecialized | frontend/src/lower.rs:286-351 | succeeds exactly when the gates of the body ask, one after another, for gates that the builders accept and the width matches; the block is then the threading of exactly those gates and a return of the wires in order |
| Lowering.LoweringReadsBack | frontend/src/lower.rs:340-351 | what lowering emits computes the asked-for gates under canonical names on the asked-for wires, returns them in order, borrows nothing, and is linear exactly when no gate repeats a wire |
| Lowering.ExtractAfterLowering | mlir_bridge/src/circ_extract.rs:175-225 | extracting a lowered block gives back exactly the gates that were placed when their names are canonical, and the same gates under canonical names in any case |
| LoweringMeaning.CompilingKeepsMeaning | frontend/src/lower.rs:286-351 | elaborating a circuit expression, lowering the body and extracting the block gives gates that act, in the exact phase semantics, as the source expression denotes |
| CircExtract.CircFunc.Extract | mlir_bridge/src/circ_extract.rs:175-225 | gives every gate before the return with the wires its operands come from, or the error of the first operation it cannot read; it drops nothing |
| CircExtract.CircFunc.Rebuild | mlir_bridge/src/circ_extract.rs:239-337 | replaces the block by the threading of the given gates; states which error each bad input gets, that validation errors change nothing, and exactly what is left behind when a builder refuses a gate half-way |
| CircExtract.ComplaintIff | mlir_bridge/src/circ_extract.rs:239-290 | validation passes exactly when every wire is in range and every rotation is on one qubit |
| CircLaws.ExtractAfterRebuild | mlir_bridge/src/circ_extract.rs:239-337 | `extract` after `rebuild` returns the same circuit if and only if its gates are registered, with the registry's arity, under canonical names |
| CircLaws.HalfRebuilt | mlir_bridge/src/circ_extract.rs:239-337 | rebuilding `X` and then a gate of negative depth reports the second gate and leaves the first in front of the old block |
| CircLaws.RebuildKeepsBehaviour | mlir_bridge/src/circ_extract.rs:183-224 | `rebuild` of `extract` keeps what a function computes if and only if the function returned its wires in order |
| CircLaws.ReturnOrderIsLost | mlir_bridge/src/circ_extract.rs:187-189 | a function that swaps its two wires at the return loses the swap |
| DynamicWalk.Walker.WalkBlock | mlir_bridge/src/dynamic_walk.rs:162-219 | the loop over the shared tracker reports exactly the events of the recursive specification and leaves its roots |
| WalkLaws.WalkNests | mlir_bridge/src/dynamic_walk.rs:244-277 | every enter event is closed by its own exit, in nested order, for every program |
| WalkWires.FlatWalk | mlir_bridge/src/dynamic_walk.rs:194-198 | on any block without regions, callback i of a gate, barrier, measurement or reset carries its kind, its name and the wires its operands come from, in operand order, and of any other operation none |
| WalkWires.WalkTells | mlir_bridge/src/dynamic_walk.rs:162-277 | so does the whole event list of a program with regions, enter and exit events with the wires of their operands included |
| WalkWires.WalkRefinesInlining | mlir_bridge/src/dynamic_walk.rs:162-277 | on well-scoped programs whose regions yield position by position, the walk reports exactly the operations of the program with every region inlined, in order, on the wires their operands come from |
| WalkRefinement.SwappedYieldsMislead | mlir_bridge/src/dynamic_walk.rs:231-242 | a region that yields its two wires swapped is walked as if it had not |
| RegionYields.TracksIffPositional | mlir_bridge/src/dynamic_walk.rs:231-259 | for every well-scoped region the walk gives its results the roots its inlining yields, for every choice of distinct operand roots, if and only if the body yields position by position |
| RegionYields.IfTracksIffPositional | mlir_bridge/src/dynamic_walk.rs:231-277 | the same for an `if`: whichever arm runs, the walk gives the results the roots that running it yields, for every choice of distinct operand roots, if and only if both arms yield position by position |
| Connectivity.FloydWarshall | backend/src/target.rs:163-187 | for every size below the sentinel and every edge list the in-place triple loop leaves in each entry the length of a shortest walk, or `UNREACHABLE` exactly when there is none |
| Connectivity.TryFromEdges | backend/src/target.rs:124-149 | reports the first self-loop, out-of-range or duplicate edge, and otherwise builds the graph with its exact matrix |
| Connectivity.AllToAllIsExact | backend/src/target.rs:97-122 | the matrix written down directly for the complete graph is the one Floyd-Warshall computes on its edges |
| Connectivity.DistanceIsMetric | backend/src/target.rs:197-206 | distances are symmetric, zero exactly on the diagonal, satisfy the triangle inequality, and stay below the number of qubits when finite |
| Connectivity.IsEdgeIffDeclared | backend/src/target.rs:209-211 | `is_edge`, which reads distance 1, holds exactly of the declared edges |
| Connectivity.SentinelAbsorbs | backend/src/target.rs:12-16 | the saturating sum never undercuts an unreachable leg |
| Depth.GateDagDepth | mlir_bridge/src/metrics.rs:134-153 | the one-pass loop over a map of last layers computes the depth of the gate dependences |
| Depth.DepthIsOptimal | mlir_bridge/src/metrics.rs:134-153 | no layering of any gate list that orders gates sharing a qubit uses fewer layers |
| Depth.DepthIsLongestChain | mlir_bridge/src/metrics.rs:134-153 | the depth is the length of a longest chain of gates, each sharing a qubit with the next |
| Depth.DepthOfConcat | mlir_bridge/src/metrics.rs:134-153 | one list after another costs at most the sum of the depths |
| Depth.AggregateVisits | mlir_bridge/src/metrics.rs:88-130 | the counters are the counts, the qubit count is one past the highest qubit, and the depth is the schedule's where one is recorded and the dependence depth otherwise |
| ParDepth.ParKeepsDepth | frontend/src/elaborate.rs:717-743 | `par { c } * k` is exactly as deep as `c`, for every k of at least one |
| ParDepth.ParNPlacesArms | frontend/src/elaborate.rs:748-768 | `par { c1, c2, … }` places its elaborated arms side by side, each on the wires past the arms before it |
| ParDepth.ParNKeepsDepth | frontend/src/elaborate.rs:748-768 | so it is exactly as deep as its deepest arm |
| ParDepth.CountBoundsDepth | frontend/src/specialized_circuit.rs:192-204 | the gate count recorded as an anonymous circuit's depth is never below its critical path |
| Hardware.ValidateHardwareQasm | backend/src/qasm_hardware.rs:59-74 | succeeds exactly when the program is legal for the device at every nesting level, and otherwise reports the first fault in program order |
| Hardware.CheckGate | backend/src/qasm_hardware.rs:127-151 | accepts a gate exactly when it is native, every qubit it names exists and the two of a two-qubit gate are coupled; otherwise names the gate, the first missing qubit or the missing coupling |
| Hardware.CheckStmts | backend/src/qasm_hardware.rs:76-117 | the same for one block, with feed-forward and mid-circuit measurement as the device allows them |
| Hardware.BlameIsUnique | backend/src/qasm_hardware.rs:76-117 | a block has at most one first fault |
| NatGrammar.NatRoundTrip | frontend/src/pretty.rs:142-153 | printing any type-level number and parsing the tokens gives it back, in front of any tokens that do not start with a number operator |
| PatGrammar.PatRoundTrip | frontend/src/pretty.rs:157-172 | printing any pattern that a parse can yield and parsing the tokens gives it back, whatever follows |
| PatGrammar.ParsedPat | frontend/src/parser.rs:186-213 | every parsed pattern is one that prints and parses back |
| TypeRoundTrip.TypeRoundTripIff | frontend/src/pretty.rs:74-128 | in front of any tokens that cannot continue a type, printing and parsing give a type back if and only if it holds no named type that clashes with a type former |
| TypeImage.ParsedType | frontend/src/parser.rs:216-361 | whatever the tokens, a parsed type is one of the types the round trip covers |
| TypeImage.ParenthesisedClassChanges | frontend/src/parser.rs:289-300 | `Circuit<n, m, d, (Clifford)>` parses to a named type, whose printed text parses to a circuit type |
| TypeLean.LeanNatReads | frontend/src/parser.rs:120-181 | a type-level number written with as few parentheses as its operators allow parses to itself: `^` over `*` and `/` over `+` and `-`, `^` to the right and the others to the left |
| TypeLean.ArrowsLeanRight | frontend/src/parser.rs:337-361 | arrows written without parentheses around what they lead to associate to the right |
| ExprImage.ParsedExpr | frontend/src/parser.rs:364-859 | whatever the tokens, a parsed expression is one of the expressions the round trip covers |
| ExprLean.LeanReads | frontend/src/parser.rs:590-783 | an expression written with as few parentheses as its operators allow, and with the arguments of each call in one pair of parentheses, parses to itself: `@` over the minus over `^` over `*` and `/` over `+` and `-` over the pipe, `^` to the right, the others to the left |
| ExprLean.CallInOrder | frontend/src/parser.rs:40-48 | `f(a1, …, an)` is f applied to a1 to an in that order |
| ExprLean.CallOfNothing | frontend/src/parser.rs:41-44 | `f()` is f applied to the unit value |
| ExprLean.IndexInOrder | frontend/src/parser.rs:50-55 | `q[i]` is `index` applied to q and i |
| ExprLean.MethodInOrder | frontend/src/parser.rs:57-63 | `q.f(a1, …, an)` is f applied to q and then a1 to an |
| ExprLean.InfixInOrder | frontend/src/parser.rs:748-763 | a name between backticks is applied to its left and its right operand, and a chain of them leans left |
| ExprLean.WordsInOrder | frontend/src/parser.rs:597-601 | `f x1 … xn` is f applied to x1 to xn in that order |
| ExprReread.PrintedReads | frontend/src/pretty.rs:201-352 | in front of any tokens that cannot continue an expression, the tokens of any source expression parse to that expression with its clashing types read again, whatever the nesting of operators, right-extending forms and blocks |
| ExprReread.ExprRoundTripIff | frontend/src/pretty.rs:201-352 | in front of any tokens that cannot continue an expression, printing and parsing give a source expression back if and only if no type in it clashes |
| ExprReread.ReparsingSettles | frontend/src/pretty.rs:201-352 | for whatever any parse yields, print and parse again reaches a fixed point after one round |
| StmtStart.BindRefused | frontend/src/parser.rs:376-406 | a printed expression at the start of a statement is never read as a bind |
| DesugarLaws.DesugaredHasNoRun | frontend/src/desugar.rs:90-184 | no `run` block is left at any depth |
| DesugarLaws.DesugaringTwice | frontend/src/desugar.rs:49-67 | a second pass changes nothing and reports nothing |
| DesugarLaws.ErrorsIff | frontend/src/desugar.rs:206-325 | nothing is reported if and only if every `run` block ends in an expression and binds no literal |
| DesugarLaws.ErrorsAreFaults | frontend/src/desugar.rs:206-325 | an error is reported if and only if some `run` block, at any depth, ends in a bind, ends in a `let`, or binds a literal at the reported place |
| Desugar.Desugarer.DesugarExpr | frontend/src/desugar.rs:90-284 | the pass that folds backwards and pushes to one shared error list computes the specified tree and the specified errors in order |
| DesugarMeaning.DesugaringKeepsMeaning | frontend/src/desugar.rs:206-325 | a left-to-right interpreter of accepted programs gives the same result and effects before and after desugaring, through binds, lets, conditionals, matches, loops, applied lambdas, ascriptions, returns and borrow bodies, under any bindings that agree up to temporaries |
| DesugarMeaning.FoldedBodyRuns | frontend/src/desugar.rs:49-67 | `fold_monadic_block` on a desugared `borrow` body gives an action that runs as the body reads |
| DesugarMeaning.FoldBodyErrorsIff | frontend/src/desugar.rs:49-67 | it reports nothing if and only if the body as written ends in an expression and binds no literal |
| Comments.CStyleCommentOutsideComments | frontend/src/lexer.rs:238-276 | returns the first `//` that stands in source text outside line and nested block comments, or nothing when there is none |
| Comments.UnterminatedBlockComment | frontend/src/lexer.rs:184-221 | returns the opening of the block comment the text ends in, or nothing |
| Comments.NothingAfterUnterminated | frontend/src/lexer.rs:184-276 | when a block comment is left open the two scanners agree: no `//` at or after its opening is reported |

## Findings

What the code does differently from what its documentation or its own other parts say. Each is stated
with the input or, where it has one, the exact condition under which the code is right.

- A circuit-level `match` passes over boolean literal arms (frontend/src/elaborate.rs:484), which
  `eval_classical` does not. The taken arm is the selected one exactly when the selected one is not a
  boolean literal (`MeaningProof.CircuitArmIff`); elaboration is wrong exactly when the two arms denote
  differently (`MeaningProof.MatchMeansIff`, instance `MeaningProof.BoolArmIsPassedOver`).
- `par` inlines a zero-argument callee under the caller's bindings (frontend/src/elaborate.rs:702),
  while a plain call inlines it under none (frontend/src/elaborate.rs:942), as its comment promises.
  The two agree when the caller binds no name the callee can come upon (`ParScope.ParBodyIsCall`), and
  for a body of one placed rotation only then (`ParScope.AlikeIffNotShadowed`,
  `ParScope.ParSeesCallersPi`).
- `controlled` of a zero-argument callee inlines it under the caller's bindings too
  (frontend/src/elaborate.rs:1426), though its comment promises the pass that a bare call site runs
  (frontend/src/elaborate.rs:1456-1458). The two agree when the caller binds no name the callee can come
  upon (`ControlScope.ControlOfCallIsOwn`), and for a body of one placed rotation only then
  (`ControlLimits.CalleeAlikeIffNotShadowed`, instance `ControlLimits.ControlSeesCallersPi`). The gates of
  any controlled call, parametric ones included, are then read under the caller's bindings once more, so
  a name the call left in them takes the caller's value (`ControlLimits.ControlReadsLeftovers`). Where no
  call sees its caller's bindings, control denotes control of the calls on their own
  (`ControlScope.ControlMeans`, `ControlMeaning.ControlDenotesControl`).
- The control decomposition does not read the index a placed body carries
  (frontend/src/elaborate.rs:1547-1590): `controlled(X @ 1)` puts its gate on the first target wire.
  It is right exactly for index 0 and for gates that act alike on both bit values
  (`ControlLimits.BodyIndexIsIgnored`).
- `controlled(SX)` and `controlled(SX_dag)` are built as controlled turns about X
  (frontend/src/elaborate.rs:1704-1717), but the square root of X, as the compiler's own matrix has it
  (backend/src/unitary.rs:162-165), is such a turn and an eighth of a turn of phase, which under control is
  no longer common to all states. The gadget does the gate on the target and that eighth of a turn on the
  control, the other way for the adjoint (`MixedControl.RootsControlled`); it controls the gate up to one
  phase for all states exactly when the gate is H (`MixedControl.RootsAreTurned`).
- Juxtaposition is promised to place as `@` does (frontend/src/elaborate.rs:781-786), but a rotation is
  recognised by one argument more than it has qubits (frontend/src/elaborate.rs:787-789), while
  targets come as one tuple: `Rzz(a) (i, j)` is left an unplaced application. It is a placement exactly
  for rotations on one qubit (`Juxtaposition.RotationJuxtaposed`).
- Inside a controlled `par`, a nested `par { g } * k` of a bare gate counts as one wire whatever k is
  (frontend/src/elaborate.rs:1289-1302), so from a start index the next arm is put on a wire the first
  arm uses exactly when k > 1 (`ControlLimits.NestedParOverlaps`).
- `extract` stops at the return and never reads its operands (mlir_bridge/src/circ_extract.rs:187-189),
  so `rebuild` after `extract` loses the order in which a function returned its wires
  (`CircLaws.ReturnOrderIsLost`; `CircLaws.RebuildKeepsBehaviour` is the exact condition).
- `rebuild` validates the wires before it changes anything, but a gate that the builder refuses is met
  only after the gates before it have been inserted: the function is left with both
  (`CircExtract.CircFunc.Rebuild`, last clause; instance `CircLaws.HalfRebuilt`).
- The walk gives a region's results its operands' roots whatever the body yields
  (mlir_bridge/src/dynamic_walk.rs:231-242), so a body that yields its wires in another order is
  reported on the wrong wires. The exact condition is `RegionYields.TracksIffPositional` for a
  region and `RegionYields.IfTracksIffPositional` for an `if`; an instance is
  `WalkRefinement.SwappedYieldsMislead`.
- A lowered gate that names one wire twice uses a value twice (frontend/src/lower.rs:941-982); the block
  is linear exactly when no gate does (`Threading.LinearIffDistinct`, instance
  `Threading.CnotOnOneWire`).
- The printer's output does not always parse back to the same tree: `Circuit<n, m, d, (Clifford)>`
  parses to a named type that prints without the parentheses and then parses to a circuit type
  (`TypeImage.ParenthesisedClassChanges`). This is the only way it fails
  (`TypeRoundTrip.TypeRoundTripIff`, `ExprReread.ExprRoundTripIff`), and one round settles it
  (`ExprReread.ReparsingSettles`).

## Left out

- Wrap-around of shifted qubit indices: an index plus an offset is an unbounded integer here and an
  `i64` in the compiler.
- Depths are unbounded integers here; the compiler keeps them in 64 and 32 bits.
- Error texts and spans: errors carry the construct they complain about, not the words; the bind
  position that names a temporary is kept, and is 0 for parsed trees.
- The probe fuel of substitution, 10 000 in the compiler, is a parameter; no result depends on it.
- The gate registry's rows; only what `Lawful` and `ListsPhaseGates` say is used.
- MeaningProof.ElaborationPreservesMeaning: in an arbitrary gate model a controlled gate denotes its
  gadget, and a controlled call the gadgets of the gates it has on its own. That this is control is
  `ControlProof.ControlIsCorrect` and `ControlMeaning.ControlDenotesControl`, in the phase semantics.
- ControlProof.ControlIsCorrect: H, SX, Rx and Ry leave the permutation-and-phase semantics; their gadgets
  are `MixedControl.RotationsControlled` and `MixedControl.RootsControlled`, one gate at a time. `par` arms
  wider than one wire are not claimed.
- LoweringMeaning.CompilingKeepsMeaning: the gates stand on the arguments, as extraction refuses borrows;
  rotations have one argument and go by the registry's own name.
- Gadgets.RzzIsExact: the angle is a literal, as it is after substitution.
- ControlMeaning.ControlDenotesControl: bodies with blocks or `par` are covered by
  `ControlMeaning.ControlledPlacement`, on the gates that control reads off them; inside `controlled` a
  block's `let`s are substituted and widths of bare gates are the registry's, which is not how elaboration
  reads them.
- ExprLean.LeanReads: forms that reach as far as they can, and `par`, are parenthesised as operands.
- MixedControl.RotationsControlled: cosine and sine are any functions with the addition law, the mirror
  law and the value at an eighth of a turn.
- DesugarMeaning.DesugaringKeepsMeaning: expressions that are values rather than actions, unapplied
  lambdas among them, and circuit forms behave as any function of their desugared form; their own
  evaluation is not modelled.
- Hardware.ValidateHardwareQasm: the condition of an `if` is not read, as the code does not read it.
- DynamicWalk.Walker.WalkBlock: operand and result lists hold qubit values only.
- Characters: the lexer, the spelling of numbers and the layout the printer chooses. The round trips are
  on tokens, the scanners on bytes.
- The parser's error recovery, and declarations and type parameters around expressions.
- Repeated alternatives of the combinator library are ordered choice without memory of how far a failed
  alternative got, which only error messages show.
- MLIR, the foreign-function layer, diagnostics, device descriptors, key codecs and the command line:
  input, output and plumbing.
- Refinement of depths with an outside solver, synthesis of unitaries, routing, scheduling, type
  checking and error-correcting codes: their deciding code is elsewhere or numeric.
