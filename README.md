# Tai-e analyses: constant propagation, dead code, CHA, pointer and taint analysis

This project models, in Dafny, the static analyses a student wrote for the
Tai-e framework (assignments A2 to A8), and proves properties of them:

- **A2 constant propagation** (`const_prop.dfy`, over `java_int.dfy`). Covers the three-level lattice
  Undef / constant / NAC and its meet, and the evaluation of expressions with Java's 32-bit `int`
  semantics (wrap-around, truncating `/` and `%`, shift distances masked to five bits). Also covers
  the boundary and initial facts, and the node transfer on a mutable `CPFact`.
- **A3 dead-code detection** (`dead_code.dfy`). A work-list traversal of the control-flow graph
  that follows only the feasible branches of `if` and `switch` statements whose condition is a
  known constant. It collects the unreachable statements and the useless assignments: a dead
  variable assigned from an expression without side effects.
- **A4 class-hierarchy analysis** (`cha.dfy`). Covers `dispatch` up the superclass chain,
  `resolve` for static, special, virtual and interface calls (the latter by a breadth-first walk
  down the subtype relation), and `buildCallGraph` from an entry method.
- **A5 context-insensitive pointer analysis** (`ci_solver.dfy`). The Andersen-style solver with its
  points-to sets, pointer flow graph (PFG), work list and on-the-fly call graph.
- **A6 context-sensitive pointer analysis** (`cs_solver.dfy`, `cs_elements.dfy`). The same solver
  over (context, element) pairs, with an abstract context selector.
- **A7 interprocedural constant propagation** (`inter_const_prop.dfy`). Covers the four edge
  transfers of the interprocedural CFG, and the node transfers that resolve field and array loads
  through a pointer-analysis result and re-queue the loads a store may reach.
- **A8 taint analysis** (`taint_analysis.dfy`, `taint_solver.dfy`). Covers the taint configuration
  queries, the taint flow graph (TFG) the context-sensitive solver keeps beside the PFG, the
  re-typed propagation of taint objects, and the collection of source-to-sink flows.

`pta_ir.dfy` holds the program as the three solvers see it. `pta_core.dfy` holds the work-list
reasoning they share. `ir.dfy` holds the dataflow IR, and `reach.dfy` holds graph reachability and
the invariant of a queue-driven traversal, used by A3 and A4.

Every solver is a class whose fields are the source's solver fields. Its methods update them in
place. The edge-adding helpers, `Propagate`, and the A8 methods that connect a call edge state
the new state exactly, down to the entries appended to the work list. The recursive wiring
methods state what they add but not that nothing else is added (see Left out).

Each solver keeps one invariant (`Inv`): points-to sets
flow along every PFG edge, up to what the work list still owes. Every reachable method, call edge
and pointed-to object is also wired, except those being wired at that moment. When the work list
drains, `FixpointIsSolution` turns this invariant into the analysis rules (`IsSolution`). Every
statement, call edge and pointed-to object of the result satisfies its inclusion constraint.

The A8 solver is modelled as written, including three context choices:

- The arg-to-result TFG entries of a static call target the result variable in the callee's
  context (`A8/Solver.java:227`).
- The taint object of an instance source call is queued at the result variable in the callee's
  context (`A8/Solver.java:431`).
- Every other result access uses the caller's context.

`TaintPta.SolutionTransfersTaint` states these choices as they are.

## Model

| member | source | states |
|---|---|---|
| JavaInt.Wrap | A2/ConstantPropagation.java:180-196 | the result is the one int congruent to the exact value modulo 2^32, and an in-range value is unchanged |
| JavaInt.AddOverflowWraps | A2/ConstantPropagation.java:180-182 | an example of the wrap-around: MAX_INT + 1 is MIN_INT and MIN_INT - 1 is MAX_INT |
| JavaInt.AddWraps | A2/ConstantPropagation.java:180-182 | for all ints, a sum above MAX_INT is off by exactly -2^32, one below MIN_INT by +2^32, and an in-range sum is exact |
| JavaInt.DivRemIdentity | A2/ConstantPropagation.java:183-193 | for every non-zero divisor, (a / b) * b + a % b == a under int wrap-around, MIN_INT / -1 included |
| JavaInt.RemainderSign | A2/ConstantPropagation.java:190-193 | a non-zero remainder has the sign of the dividend and is smaller in magnitude than the divisor |
| JavaInt.DivisionTruncates | A2/ConstantPropagation.java:183-193 | examples of rounding toward zero: -7 / 2 == -3, -7 % 2 == -1, 7 % -2 == 1, and MIN_INT / -1 overflows to MIN_INT |
| JavaInt.DivRoundsTowardZero | A2/ConstantPropagation.java:183-186 | for every int dividend and non-zero divisor other than the overflow MIN_INT / -1 (which gives MIN_INT), the quotient's magnitude is Abs(a) / Abs(b) rounded down and a non-zero quotient is negative exactly when the signs differ |
| JavaInt.Distance | A2/ConstantPropagation.java:232-241 | a shift distance is below 32 |
| JavaInt.ShiftDistanceMasked | A2/ConstantPropagation.java:232-241 | `<<`, `>>` and `>>>` by s + 32 equal the shift by s, and a shift by 32 changes nothing |
| JavaInt.ShiftsOnSign | A2/ConstantPropagation.java:236-241 | `>>` and `>>>` agree on non-negative ints, and `-1 >> s` is -1 |
| JavaInt.Unsigned | A2/ConstantPropagation.java:239-241 | the unsigned reading used by `>>>` lies in [0, 2^32) |
| JavaInt.BitwiseExamples | A2/ConstantPropagation.java:220-230 | one example per operator: 12 & 10 == 8, 12 \| 10 == 14, 12 ^ 10 == 6 |
| JavaInt.BitwiseByBits | A2/ConstantPropagation.java:220-230 | for all ints and every bit position, each bit of `a & b`, `a \| b` and `a ^ b` in two's complement is the AND, OR and XOR of the operands' bits at that position |
| JavaInt.AndCommutes | A2/ConstantPropagation.java:224-226 | bitwise AND is commutative |
| JavaInt.XorSelf | A2/ConstantPropagation.java:227-229 | x ^ x == 0 |
| Ir.DefVar | A2/ConstantPropagation.java:108-112 | only definition statements (assignments and invocations) define a variable |
| ConstProp.MeetValue | A2/ConstantPropagation.java:80-100 | the meet is the least upper bound of its operands in the order Undef below constants below NAC |
| ConstProp.MeetIsCommutativeAndIdempotent | A2/ConstantPropagation.java:80-100 | meet is commutative and idempotent, Undef is its identity and NAC absorbs |
| ConstProp.MeetIsAssociative | A2/ConstantPropagation.java:80-100 | meet is associative, so the order in which meetInto visits keys does not matter |
| ConstProp.MeetOfConstants | A2/ConstantPropagation.java:94-98 | two constants meet to that constant when equal and to NAC when they differ |
| ConstProp.Updated | A2/ConstantPropagation.java:113-114 | a fact update sets the variable, keeps every other one, and keeps the fact free of stored Undef |
| ConstProp.FactExtensionality | A2/ConstantPropagation.java:121 | two facts are equal exactly when they read the same value for every variable |
| ConstProp.DivisionByZeroIsUndef | A2/ConstantPropagation.java:175-256 | `/` or `%` by a divisor known to be 0 is Undef whatever the dividend, NAC included |
| ConstProp.ComparisonIsZeroOrOne | A2/ConstantPropagation.java:199-218 | a comparison of two constants evaluates to the constant 0 or 1 |
| ConstProp.ComparisonIsNeverConstant | A2/ConstantPropagation.java:165-257 | a long, float or double comparison (CMP, CMPL, CMPG) never evaluates to a constant, and it is Undef when neither operand can hold an int and the fact holds only variables that can |
| ConstProp.EvaluateIsMonotone | A2/ConstantPropagation.java:154-258 | raising the input fact raises the value of every expression, unless a divisor rises to the constant 0 |
| ConstProp.DivisionIsNotMonotone | A2/ConstantPropagation.java:245-253 | that exception is real: x / y is NAC with y Undef and Undef with y == 0, a larger fact |
| ConstProp.CanHoldInt | A2/ConstantPropagation.java:132-145 | exactly the byte, short, int, char and boolean variables can hold an int |
| ConstProp.TransferFact | A2/ConstantPropagation.java:106-117 | the transferred fact stores no Undef |
| ConstProp.TransferFactReads | A2/ConstantPropagation.java:103-117 | the transfer sets a defined int-holding variable to its evaluated right-hand side and keeps every other variable |
| ConstProp.TransferIsMonotone | A2/ConstantPropagation.java:103-127 | the node transfer is monotone in its input fact, with Evaluate's division exception |
| ConstProp.NewInitialFact | A2/ConstantPropagation.java:63-66 | the initial fact maps every variable to Undef |
| ConstProp.NewBoundaryFact | A2/ConstantPropagation.java:51-60 | the boundary fact maps exactly the int-holding parameters to NAC and everything else to Undef |
| ConstProp.CPFact.Update | A2/ConstantPropagation.java:113-114 | update in place: the entries become the updated fact, and it reports whether they changed |
| ConstProp.CPFact.CopyFrom | A2/ConstantPropagation.java:124 | copyFrom overwrites the source's keys and keeps the others, and reports whether anything changed |
| ConstProp.MeetInto | A2/ConstantPropagation.java:69-75 | afterwards every variable of the target holds the meet of its old value and the fact's value |
| ConstProp.TransferNode | A2/ConstantPropagation.java:103-127 | it reports a change exactly when the transferred fact differs from OUT, and only then merges it into OUT |
| ConstProp.RepeatedTransferIsStable | A2/ConstantPropagation.java:121-126 | after a change OUT is its old entries overwritten by the transferred fact; a second transfer with the same IN reports no change exactly when the old OUT had no variable outside the transferred fact, since `copyFrom` removes nothing |
| DeadCode.HasNoSideEffect | A3/DeadCodeDetection.java:170-188 | false exactly for allocations, casts, field and array accesses, and integer `/` and `%`; every other right-hand side (literals, variables, other arithmetic, comparisons, bitwise operations, shifts, invocations) has no side effect |
| DeadCode.Targets | A3/DeadCodeDetection.java:107-125 | a node is queued exactly when some out-edge of the kind followed leads to it |
| DeadCode.ConstantBranchFollowsOneSide | A3/DeadCodeDetection.java:104-111 | an `if` whose condition is the constant 0 follows only its IF_FALSE edges |
| DeadCode.UnmatchedSwitchTakesDefault | A3/DeadCodeDetection.java:142-144 | a `switch` on a constant that no case lists goes to its default target only |
| DeadCode.EnqueueTargets | A3/DeadCodeDetection.java:107-125 | the queue grows by the targets of the followed edges, in edge order |
| DeadCode.Visit | A3/DeadCodeDetection.java:86-158 | a visited statement is classified dead exactly when it is a useless assignment, and the queue grows by the nodes the traversal follows from it |
| DeadCode.VisitHead | A3/DeadCodeDetection.java:80-158 | one round on an unvisited queue head keeps the traversal invariant and the dead/live classification, and shrinks the unvisited part |
| DeadCode.Traverse | A3/DeadCodeDetection.java:77-159 | the visited statements are exactly those reachable along followed edges; dead and live are disjoint and classified correctly |
| DeadCode.Analyze | A3/DeadCodeDetection.java:59-165 | the dead code is every node but entry and exit that is unreachable along followed edges or is a useless assignment |
| Cha.DeclaredMethod | A4/CHABuilder.java:120 | a class yields a declared method exactly when it declares that subsignature |
| Cha.DispatchIsConcreteDeclaration | A4/CHABuilder.java:115-127 | dispatch returns a non-abstract declaration of the subsignature in the class or its nearest superclass that has one |
| Cha.DispatchNoneMeansNoConcrete | A4/CHABuilder.java:115-127 | dispatch fails only when no class on the superclass chain declares the subsignature concretely |
| Cha.StaticTargetIsDeclaration | A4/CHABuilder.java:83-84 | a static call resolves to the declaration in the named class or the nearest superclass, and to nothing only when no class on the chain declares it |
| Cha.InheritedStaticCallResolvesToNull | A4/CHABuilder.java:83-84 | a static call through a subclass name to an inherited method finds nothing in the code as written, while the intended target exists |
| Cha.QueueWeightDrops | A4/CHABuilder.java:95-104 | replacing the head of the subtype queue by its direct subtypes lowers a well-founded measure, so the walk ends |
| Cha.ResolveVirtual | A4/CHABuilder.java:91-105 | a virtual or interface call resolves to the dispatch targets of every subtype of the named class, the class itself included |
| Cha.Resolve | A4/CHABuilder.java:76-107 | the resolved set follows the call kind: the corrected static target (see Findings), dispatch from the named class, dispatch over all subtypes, or nothing |
| Cha.ResolvedAreDeclared | A4/CHABuilder.java:76-107 | every resolved callee is a declared method of the hierarchy |
| Cha.AddSiteTargets | A4/CHABuilder.java:62-65 | one edge of the site's kind is added per resolved callee, and each callee is queued |
| Cha.ProcessCallSites | A4/CHABuilder.java:60-66 | the edges of a method are exactly its call sites' edges, and exactly their callees are queued |
| Cha.BuildCallGraph | A4/CHABuilder.java:49-71 | the entry is the only entry method, the reachable methods are exactly those reachable through resolved calls, and the edges are exactly those of the reachable methods' call sites (static calls resolved with the corrected target, see Findings) |
| InterConstProp.IndexIntersectMeansCommonInt | A7/InterConstantPropagation.java:252-260 | two index values intersect exactly when some int is represented by both |
| InterConstProp.IndexIntersectIsSymmetric | A7/InterConstantPropagation.java:252-260 | isIndexIntersect is symmetric |
| InterConstProp.MeetStep | A7/InterConstantPropagation.java:128-130 | meeting one more value into the meet of a set gives the meet of the larger set |
| InterConstProp.MeetOfSet | A7/InterConstantPropagation.java:118-156 | the meet of a finite set of values is its least upper bound, Undef for the empty set |
| InterConstProp.TransferNormalEdge | A7/InterConstantPropagation.java:263-266 | an intraprocedural edge passes the fact on unchanged |
| InterConstProp.TransferCallToReturnEdge | A7/InterConstantPropagation.java:269-280 | the call-to-return edge drops the call's result variable and keeps every other variable |
| InterConstProp.BoundArgOfDistinctParams | A7/InterConstantPropagation.java:283-294 | with distinct parameters, the i-th parameter is bound to the i-th argument and nothing else is bound |
| InterConstProp.TransferCallEdge | A7/InterConstantPropagation.java:283-294 | the callee's entry fact binds each parameter to its argument's value at the call site and nothing else |
| InterConstProp.TransferReturnEdge | A7/InterConstantPropagation.java:297-310 | the result variable gets the meet of the return variables' values; without a result the fact is empty |
| InterConstProp.TransferCallNode | A7/InterConstantPropagation.java:96-103 | a call node reports a change exactly when OUT differs from IN, and then copies IN into OUT |
| InterConstProp.AliasedAccessesMembers | A7/InterConstantPropagation.java:137-144 | an access is considered exactly when it belongs to a variable whose points-to set meets the base's |
| InterConstProp.MeetMatching | A7/InterConstantPropagation.java:144-153 | the loop meets in the values written by exactly the matching stores |
| InterConstProp.MeetOverAliases | A7/InterConstantPropagation.java:137-155 | the loaded value is the meet of the values of the matching stores through every alias of the base |
| InterConstProp.RequeueMatching | A7/InterConstantPropagation.java:183-193 | exactly the matching loads of the given list are re-queued |
| InterConstProp.RequeueOverAliases | A7/InterConstantPropagation.java:176-195 | a store re-queues exactly the matching loads through aliases of its base |
| InterConstProp.TransferNonCallNode | A7/InterConstantPropagation.java:106-250 | loads set their int-holding target to the meet over the stores they may read (a non-int field load only copies IN); stores re-queue the loads they may reach; all else falls back on the node transfer |
| InterConstProp.InstanceLoadCoversAliasedStores | A7/InterConstantPropagation.java:133-158 | an instance load reads at least the value of every same-field store through an alias of its base |
| InterConstProp.UnaliasedLoadIsUndef | A7/InterConstantPropagation.java:118-158 | a load through a base that aliases no variable reads Undef |
| PtaCore.Delta | A5/Solver.java:249-257 | delta is the part of the propagated set not yet in the points-to set, and adding it equals adding the whole set |
| PtaCore.FlowsAlongNewEdge | A5/Solver.java:189-198 | a new edge keeps flow when its source's points-to set is owed to its target |
| PtaCore.AddEdgeKeepsFlow | A5/Solver.java:189-198 | adding an edge, and queueing the source's non-empty points-to set only when the edge is new, keeps flow along every edge |
| PtaCore.PropagateKeepsFlow | A5/Solver.java:247-266 | propagating the head entry and queueing delta at every successor keeps flow and loses nothing owed |
| PtaCore.FlowsAlongAtFixpoint | A5/Solver.java:203-241 | once nothing is owed, every edge's target points to all its source points to |
| CIPta.ArgEdgesMembers | A5/Solver.java:283-287 | the argument edges are exactly a_j -> p_j for each position j |
| CIPta.RetEdgesMembers | A5/Solver.java:289-297 | the return edges are exactly ret_j -> r for each return variable |
| CIPta.StoreEdgesMembers | A5/Solver.java:219-223 | the store edges are exactly y -> o.f for each x.f = y |
| CIPta.LoadEdgesMembers | A5/Solver.java:224-228 | the load edges are exactly o.f -> y for each y = x.f |
| CIPta.ArrayStoreEdgesMembers | A5/Solver.java:229-232 | the array store edges are exactly y -> o[*] for each x[*] = y |
| CIPta.ArrayLoadEdgesMembers | A5/Solver.java:233-236 | the array load edges are exactly o[*] -> y for each y = x[*] |
| CIPta.StmtRuleAtFixpoint | A5/Solver.java:117-183 | at the fixpoint a visited statement's rule holds: New, Copy, static field accesses, static calls |
| CIPta.EdgeRuleAtFixpoint | A5/Solver.java:281-298 | at the fixpoint arguments flow to parameters and return variables to the result along every call edge |
| CIPta.ObjRuleAtFixpoint | A5/Solver.java:218-237 | at the fixpoint each object of a variable brings its field, array and call flows |
| CIPta.FixpointIsSolution | A5/Solver.java:203-241 | an invariant state with an empty work list solves every rule of the analysis |
| CIPta.PollKeepsInv | A5/Solver.java:205-209 | polling and propagating the head entry keeps the invariant, leaving only the new objects to wire |
| CIPta.Solver.constructor | A5/Solver.java:70-72 | a new solver starts with empty points-to sets, PFG, work list and call graph |
| CIPta.Solver.AddPFGEdge | A5/Solver.java:189-198 | the edge is added, and the source's points-to set is queued at the target only for a new edge with a non-empty source |
| CIPta.Solver.Enqueue | A5/Solver.java:145 | the entry is appended, and what it carries is owed to its pointer |
| CIPta.Solver.AddArgEdges | A5/Solver.java:124-128 | the PFG grows by exactly the argument edges; the points-to sets and call graph are unchanged, and the work list gains exactly one entry per new edge whose source points to something, carrying that source's points-to set |
| CIPta.Solver.AddReturnEdges | A5/Solver.java:130-136 | the PFG grows by exactly the return edges; the points-to sets and call graph are unchanged, and the work list gains exactly one entry per new edge whose source points to something, carrying that source's points-to set |
| CIPta.Solver.ConnectCall | A5/Solver.java:124-136 | the PFG grows by exactly the call's argument edges and, with a result, its return edges; the points-to sets and call graph are unchanged, and the work list gains exactly one entry per new edge whose source points to something, carrying that source's points-to set |
| CIPta.Solver.AddReachable | A5/Solver.java:100-108 | the method becomes reachable; a method already reachable leaves the state unchanged |
| CIPta.Solver.VisitBody | A5/Solver.java:104-106 | every statement of the method is visited and wired |
| CIPta.Solver.VisitStmt | A5/Solver.java:117-183 | New queues its object; Copy and static field accesses add one edge; a static call with a new STATIC edge wires its callee; everything else changes nothing |
| CIPta.Solver.NewCallEdge | A5/Solver.java:281-298 | the call edge is added, its callee made reachable, and its argument and return edges added |
| CIPta.Solver.Propagate | A5/Solver.java:247-266 | the points-to set grows by the entry, delta is what was new, and delta is queued at exactly the successors |
| CIPta.Solver.AddStoreEdges | A5/Solver.java:219-223 | the PFG grows by exactly the store edges for the object; the points-to sets and call graph are unchanged, and the work list gains exactly one entry per new edge whose source points to something, carrying that source's points-to set |
| CIPta.Solver.AddLoadEdges | A5/Solver.java:224-228 | the PFG grows by exactly the load edges for the object; the points-to sets and call graph are unchanged, and the work list gains exactly one entry per new edge whose source points to something, carrying that source's points-to set |
| CIPta.Solver.AddArrayStoreEdges | A5/Solver.java:229-232 | the PFG grows by exactly the array store edges for the object; the points-to sets and call graph are unchanged, and the work list gains exactly one entry per new edge whose source points to something, carrying that source's points-to set |
| CIPta.Solver.AddArrayLoadEdges | A5/Solver.java:233-236 | the PFG grows by exactly the array load edges for the object; the points-to sets and call graph are unchanged, and the work list gains exactly one entry per new edge whose source points to something, carrying that source's points-to set |
| CIPta.Solver.ReplayFields | A5/Solver.java:218-236 | the PFG grows by exactly the field and array edges of the variable for the object; the points-to sets and call graph are unchanged, and the work list gains exactly one entry per new edge whose source points to something, carrying that source's points-to set |
| CIPta.Solver.ProcessCall | A5/Solver.java:274-300 | every call on the receiver has its edge, and the object is owed to the callee's `this` |
| CIPta.Solver.ReplayObject | A5/Solver.java:218-238 | the object is fully wired for the variable |
| CIPta.Solver.Analyze | A5/Solver.java:203-241 | it reports drained exactly when the work list is empty, and keeps the invariant |
| CIPta.Solver.Initialize | A5/Solver.java:85-95 | the entry method is the only entry and is reachable, and the invariant holds |
| CIPta.Solver.Solve | A5/Solver.java:77-80 | when the work list drains, the points-to sets and call graph solve the analysis rules from the entry |
| CsElements.ArgEdgesMembers | A6/Solver.java:313-317 | the argument edges are exactly (c, a_j) -> (c', p_j) |
| CsElements.RetEdgesMembers | A6/Solver.java:319-328 | the return edges are exactly (c', ret_j) -> (c, r) |
| CsElements.StoreEdgesMembers | A6/Solver.java:238-243 | the store edges are exactly (c, y) -> o.f |
| CsElements.LoadEdgesMembers | A6/Solver.java:244-249 | the load edges are exactly o.f -> (c, y) |
| CsElements.ArrayStoreEdgesMembers | A6/Solver.java:250-254 | the array store edges are exactly (c, y) -> o[*] |
| CsElements.ArrayLoadEdgesMembers | A6/Solver.java:255-259 | the array load edges are exactly o[*] -> (c, y) |
| CsPta.StmtRuleAtFixpoint | A6/Solver.java:144-206 | at the fixpoint every statement of a reachable (context, method) satisfies its rule in that context |
| CsPta.EdgeRuleAtFixpoint | A6/Solver.java:309-329 | at the fixpoint arguments flow to parameters and return variables to the result, each in its context |
| CsPta.ObjRuleAtFixpoint | A6/Solver.java:237-261 | at the fixpoint each object of a variable in a context brings its field, array and call flows |
| CsPta.FixpointIsSolution | A6/Solver.java:225-265 | an invariant state with an empty work list solves the context-sensitive rules |
| CsPta.PollKeepsInv | A6/Solver.java:227-231 | polling and propagating the head entry keeps the invariant |
| CsPta.Solver.constructor | A6/Solver.java:88-93 | a new solver starts empty, with the given selector |
| CsPta.Solver.AddPFGEdge | A6/Solver.java:212-220 | the edge is added, and the source's set is queued only for a new edge with a non-empty source |
| CsPta.Solver.Enqueue | A6/Solver.java:150 | the entry is appended, and what it carries is owed to its pointer |
| CsPta.Solver.AddArgEdges | A6/Solver.java:313-317 | the PFG grows by exactly the argument edges between the two contexts; the points-to sets and call graph are unchanged, and the work list gains exactly one entry per new edge whose source points to something, carrying that source's points-to set |
| CsPta.Solver.AddReturnEdges | A6/Solver.java:319-328 | the PFG grows by exactly the return edges between the two contexts; the points-to sets and call graph are unchanged, and the work list gains exactly one entry per new edge whose source points to something, carrying that source's points-to set |
| CsPta.Solver.ConnectCall | A6/Solver.java:190-202 | the PFG grows by exactly the call edge's argument and return edges; the points-to sets and call graph are unchanged, and the work list gains exactly one entry per new edge whose source points to something, carrying that source's points-to set |
| CsPta.Solver.AddReachable | A6/Solver.java:116-125 | the pair becomes reachable; one already reachable leaves the state unchanged |
| CsPta.Solver.VisitBody | A6/Solver.java:120-123 | every statement is visited in the pair's context |
| CsPta.Solver.VisitStmt | A6/Solver.java:144-206 | New queues its object with its heap context; Copy and static field accesses add one edge in the method's context; a static call with a new edge wires the callee in its selected context |
| CsPta.Solver.NewCallEdge | A6/Solver.java:309-329 | the call edge is added, its callee pair made reachable, and its argument and return edges added |
| CsPta.Solver.Propagate | A6/Solver.java:271-287 | the points-to set grows by the entry, delta is what was new, and delta is queued at exactly the successors |
| CsPta.Solver.AddStoreEdges | A6/Solver.java:238-243 | the PFG grows by exactly the store edges for the object; the points-to sets and call graph are unchanged, and the work list gains exactly one entry per new edge whose source points to something, carrying that source's points-to set |
| CsPta.Solver.AddLoadEdges | A6/Solver.java:244-249 | the PFG grows by exactly the load edges for the object; the points-to sets and call graph are unchanged, and the work list gains exactly one entry per new edge whose source points to something, carrying that source's points-to set |
| CsPta.Solver.AddArrayStoreEdges | A6/Solver.java:250-254 | the PFG grows by exactly the array store edges for the object; the points-to sets and call graph are unchanged, and the work list gains exactly one entry per new edge whose source points to something, carrying that source's points-to set |
| CsPta.Solver.AddArrayLoadEdges | A6/Solver.java:255-259 | the PFG grows by exactly the array load edges for the object; the points-to sets and call graph are unchanged, and the work list gains exactly one entry per new edge whose source points to something, carrying that source's points-to set |
| CsPta.Solver.ReplayFields | A6/Solver.java:238-259 | the PFG grows by exactly the field and array edges of the variable for the object; the points-to sets and call graph are unchanged, and the work list gains exactly one entry per new edge whose source points to something, carrying that source's points-to set |
| CsPta.Solver.ProcessCall | A6/Solver.java:295-331 | every call on the receiver has its edge to the callee in its selected context, and the object is owed to that `this` |
| CsPta.Solver.ReplayObject | A6/Solver.java:237-261 | the object is fully wired for the variable in its context |
| CsPta.Solver.Analyze | A6/Solver.java:225-265 | it reports drained exactly when the work list is empty, and keeps the invariant |
| CsPta.Solver.Initialize | A6/Solver.java:100-111 | the entry method in the empty context is the only entry and is reachable, and the invariant holds |
| CsPta.Solver.Solve | A6/Solver.java:95-98 | when the work list drains, the result solves the context-sensitive rules from the entry |
| Taint.GetTaintObj | A8/TaintAnalysiss.java:111-113 | the taint object is a taint object of that source call, in the empty context |
| Taint.TaintObjRoundTrip | A8/TaintAnalysiss.java:111-113 | a taint object in the empty context is remade from its own source and type, and distinct pairs make distinct objects |
| Taint.LastSourceTypeSpec | A8/TaintAnalysiss.java:115-123 | none exactly when no source names the method, otherwise the type of the last source naming it |
| Taint.GetMethodTypeSource | A8/TaintAnalysiss.java:115-123 | the loop returns the type of the last configured source with that method, or none |
| Taint.FirstTransferTypeSpec | A8/TaintAnalysiss.java:125-133 | none exactly when no transfer matches method and slots, otherwise the type of the first matching transfer |
| Taint.GetType | A8/TaintAnalysiss.java:125-133 | the loop returns the type of the first matching transfer, or none |
| Taint.Arg2Result | A8/TaintAnalysiss.java:134-136 | the transfer type from argument i to the result |
| Taint.Arg2Base | A8/TaintAnalysiss.java:138-140 | the transfer type from argument i to the receiver |
| Taint.Base2Result | A8/TaintAnalysiss.java:142-144 | the transfer type from the receiver to the result |
| Taint.ReportedFlowsMembers | A8/TaintAnalysiss.java:79-109 | a flow is reported exactly when some call edge's argument at a sink position points to a taint object of that source call |
| Taint.CollectArgFlows | A8/TaintAnalysiss.java:98-104 | one flow per taint object in the argument's points-to set |
| Taint.CollectEdgeFlows | A8/TaintAnalysiss.java:92-106 | the flows of one call edge, over every sink position among the callee's parameters |
| Taint.CollectTaintFlows | A8/TaintAnalysiss.java:79-109 | the collected flows are exactly the reported flows over all call edges |
| TaintPta.TfgSuccsMembers | A8/Solver.java:349 | the TFG entries of a pointer are exactly its (target, type) pairs |
| TaintPta.TaintFlowsNewEdge | A8/Solver.java:273-288 | a new TFG entry keeps taint flowing when the re-typed taint of its source is owed to its target |
| TaintPta.PropagateKeepsTaintFlow | A8/Solver.java:339-368 | propagating an entry and queueing re-typed copies of the new taint objects along every TFG entry keeps taint flow |
| TaintPta.StaticArgTaintHas | A8/Solver.java:218-233 | the TFG entries of a static call hold the arg-to-result entry of each argument position |
| TaintPta.InstanceArgTaintHas | A8/Solver.java:394-415 | the TFG entries of an instance call hold the arg-to-base and arg-to-result entries of each argument position |
| TaintPta.SolutionTransfersTaint | A8/Solver.java:376-448 | in a solution, taint at a transferring argument or receiver reaches the receiver or result re-typed, and a source call's result holds its taint object, in the contexts the code uses |
| TaintPta.StmtRuleAtFixpoint | A8/Solver.java:167-258 | at the fixpoint every statement of a reachable pair satisfies its rule |
| TaintPta.EdgeRuleAtFixpoint | A8/Solver.java:390-445 | at the fixpoint every call edge has its PFG and TFG entries, and a source call's taint object is at its result |
| TaintPta.ObjRuleAtFixpoint | A8/Solver.java:305-329 | at the fixpoint each object of a variable brings its field, array and call flows |
| TaintPta.FixpointIsSolution | A8/Solver.java:293-333 | an invariant state with an empty work list solves the rules, taint propagation along the TFG included |
| TaintPta.PollKeepsInv | A8/Solver.java:295-299 | polling and propagating the head entry keeps the invariant |
| TaintPta.RetypeTaint | A8/Solver.java:275-283 | the result is the set of taint objects of the points-to set, each remade with the new type |
| TaintPta.Solver.constructor | A8/Solver.java:97-102 | a new solver starts empty, TFG included |
| TaintPta.Solver.AddPFGEdge | A8/Solver.java:264-272 | the edge is added, and the source's set is queued only for a new edge with a non-empty source |
| TaintPta.Solver.AddTFGEdge | A8/Solver.java:273-288 | the entry is added, and the source's re-typed taint objects are queued at the target only for a new entry and only if there are any |
| TaintPta.Solver.Enqueue | A8/Solver.java:173 | the entry is appended, and what it carries is owed to its pointer |
| TaintPta.Solver.AddArgEdges | A8/Solver.java:218-221 | the PFG grows by exactly the argument edges; the points-to sets and call graph are unchanged, and the work list gains exactly one entry per new edge whose source points to something, carrying that source's points-to set |
| TaintPta.Solver.AddStaticArgTaint | A8/Solver.java:218-233 | the TFG grows by exactly the arg-to-result entries of a static call; the points-to sets, PFG and call graph are unchanged, and the work list gains exactly one entry per new TFG entry whose source points to a taint object, carrying those objects re-typed |
| TaintPta.Solver.AddInstanceArgTaint | A8/Solver.java:394-415 | the TFG grows by exactly the arg-to-base and arg-to-result entries of an instance call; the points-to sets, PFG and call graph are unchanged, and the work list gains exactly one entry per new TFG entry whose source points to a taint object, carrying those objects re-typed |
| TaintPta.Solver.AddStaticArgEntry | A8/Solver.java:222-231 | the TFG grows by exactly the entries of one argument position of a static call; the points-to sets, PFG and call graph are unchanged, and the work list gains exactly one entry per new TFG entry whose source points to a taint object, carrying those objects re-typed |
| TaintPta.Solver.AddInstanceArgEntry | A8/Solver.java:398-414 | the TFG grows by exactly the entries of one argument position of an instance call, taking the entries of the positions before it to those up to and including it; the points-to sets, PFG and call graph are unchanged, and the work list gains exactly one entry per new TFG entry whose source points to a taint object, carrying those objects re-typed |
| TaintPta.Solver.AddReturnEdges | A8/Solver.java:235-241 | the PFG grows by exactly the return edges; the points-to sets and call graph are unchanged, and the work list gains exactly one entry per new edge whose source points to something, carrying that source's points-to set |
| TaintPta.Solver.SeedSource | A8/Solver.java:242-253 | when the callee is a source, its taint object for the call site (typed by the last matching source) is appended at the given result pointer, and otherwise the work list is unchanged; nothing else changes |
| TaintPta.Solver.ConnectStaticCall | A8/Solver.java:216-253 | a static call edge gets exactly its argument and return edges and its arg-to-result entries, with the points-to sets unchanged; the work list gains exactly one entry per new PFG edge from a non-empty source, one per new TFG entry whose source points to a taint object, and the source taint object if the callee is a source |
| TaintPta.Solver.ConnectInstanceCall | A8/Solver.java:392-444 | an instance call edge gets exactly its argument and return edges and its arg-to-base, arg-to-result and base-to-result entries, with the points-to sets unchanged; the work list gains exactly one entry per new PFG edge from a non-empty source, one per new TFG entry whose source points to a taint object, and the source taint object if the callee is a source |
| TaintPta.Solver.ConnectInstanceResult | A8/Solver.java:416-441 | for a call with a result variable: exactly the callee's return edges to it and, when the callee declares one, the base-to-result entry are added; the work list gains exactly one entry per new PFG edge from a non-empty source, one per new TFG entry whose source points to a taint object, and the source taint object if the callee is a source, queued at the result in the callee's context |
| TaintPta.Solver.AddReachable | A8/Solver.java:140-149 | the pair becomes reachable; one already reachable leaves the state unchanged |
| TaintPta.Solver.VisitBody | A8/Solver.java:144-147 | every statement is visited in the pair's context |
| TaintPta.Solver.VisitStmt | A8/Solver.java:167-258 | as in the context-sensitive solver, with a new static call edge also wired for taint |
| TaintPta.Solver.NewCallEdge | A8/Solver.java:390-445 | the call edge is added, its callee pair made reachable, and its PFG and TFG entries added |
| TaintPta.Solver.ConnectEdge | A8/Solver.java:216-253 | a call edge gets exactly its argument, return and taint entries, and its source taint, by ConnectStaticCall for a static call and ConnectInstanceCall otherwise |
| TaintPta.Solver.EnqueueRetyped | A8/Solver.java:349-356 | the work list gains, in some order, exactly one entry per TFG target: the taint object of the source call site re-typed to that target's type; nothing else changes |
| TaintPta.Solver.Propagate | A8/Solver.java:339-368 | as in the context-sensitive solver; before the successor entries it queues exactly one re-typed taint object per new taint object and TFG entry of the pointer, and no other entry |
| TaintPta.Solver.EnqueueAtSuccs | A8/Solver.java:360-365 | the non-empty delta is queued at exactly the PFG successors of the pointer, one entry each, and nothing else changes |
| TaintPta.Solver.AddStoreEdges | A8/Solver.java:306-311 | the PFG grows by exactly the store edges for the object; the points-to sets and call graph are unchanged, and the work list gains exactly one entry per new edge whose source points to something, carrying that source's points-to set |
| TaintPta.Solver.AddLoadEdges | A8/Solver.java:312-317 | the PFG grows by exactly the load edges for the object; the points-to sets and call graph are unchanged, and the work list gains exactly one entry per new edge whose source points to something, carrying that source's points-to set |
| TaintPta.Solver.AddArrayStoreEdges | A8/Solver.java:318-322 | the PFG grows by exactly the array store edges for the object; the points-to sets and call graph are unchanged, and the work list gains exactly one entry per new edge whose source points to something, carrying that source's points-to set |
| TaintPta.Solver.AddArrayLoadEdges | A8/Solver.java:323-327 | the PFG grows by exactly the array load edges for the object; the points-to sets and call graph are unchanged, and the work list gains exactly one entry per new edge whose source points to something, carrying that source's points-to set |
| TaintPta.Solver.ReplayFields | A8/Solver.java:306-327 | the PFG grows by exactly the field and array edges of the variable for the object; the points-to sets and call graph are unchanged, and the work list gains exactly one entry per new edge whose source points to something, carrying that source's points-to set |
| TaintPta.Solver.ProcessCall | A8/Solver.java:376-448 | every call on the receiver has its edge, and the object is owed to the callee's `this` |
| TaintPta.Solver.ProcessSite | A8/Solver.java:378-446 | for one call on the receiver: the object is owed to the callee's `this` in the selected context and the call edge is wired, with the invariant kept and the state only grown |
| TaintPta.Solver.ReplayObject | A8/Solver.java:305-329 | the object is fully wired for the variable in its context |
| TaintPta.Solver.Analyze | A8/Solver.java:293-333 | it reports drained exactly when the work list is empty, and keeps the invariant |
| TaintPta.Solver.Initialize | A8/Solver.java:122-135 | the entry method in the empty context is the only entry and is reachable, and the invariant holds |
| TaintPta.Solver.Solve | A8/Solver.java:116-120 | when the work list drains, the result solves the rules and the flows are exactly those the solution reports; otherwise none are collected |

## Left out

- Loading the program (World, the IR builder, the main-method lookup), option and taint-configuration parsing, logging, and `onFinish` storing the flows: I/O and framework code. The program, the taint configuration and the entry method are inputs.
- `CallGraphs.resolveCallee`, the heap model, the context selector and `CSManager` are code outside these files. They are given as functions: `Program.resolveCallee`, `Obj`, `Selector`, and the datatype constructors for context-sensitive elements. Taint objects are `TaintObj(source, type)`, as the taint manager makes them.
- Tai-e's `CPFact` (`MapFact`) is not part of this model. The model takes its documented behaviour: an absent key reads Undef, updating a key to Undef removes it, and `copyFrom` puts every key of its argument and reports a change.
- Iteration order over Java hash sets (points-to sets, the TFG multimap, call sites) is not fixed. The model picks elements with `:|`, and its results do not depend on the order.
- The interprocedural worklist solver that drives the A7 transfers is not part of this model. Its current out facts are the input `Env.outFact`, and a re-queued load is returned rather than added to its work list.
- CIPta.Solver.Analyze, CsPta.Solver.Analyze, TaintPta.Solver.Analyze: the work-list loop takes a fuel bound, and termination of the analysis is not proved. When the fuel runs out the result reports that the work list did not drain.
- CIPta.Solver.AddReachable: states that the method becomes reachable, that the invariant is kept and that the state only grows (`Extends`). It does not state the exact call edges, PFG edges and work-list entries its recursive wiring adds.
- CIPta.Solver.VisitBody: states that every statement of the body is wired and that the state only grows. It does not state that nothing beyond that wiring is added.
- CIPta.Solver.VisitStmt: exact for New, Copy and static field accesses. For a static call it states that the edge is wired and the state only grows, not exactly what the recursive wiring of the callee adds.
- CIPta.Solver.NewCallEdge: states that the edge is added, its callee made reachable and its edges added, and that the state only grows. It does not state that nothing else is added by the recursive wiring of the callee.
- CIPta.Solver.ProcessCall: states that every call on the receiver is wired for the object and that the state only grows, not the exact set of call edges and entries added.
- CIPta.Solver.ReplayObject: states that the object is fully wired for the variable and that the state only grows, not the exact set of edges and entries added.
- CIPta.Solver.Initialize: states the entry methods, that the entry is reachable and that the invariant holds, not the exact state the wiring of the entry method produces.
- CIPta.Solver.Analyze: states what the loop keeps (the invariant, growth of the state) and when it drained, not the exact state of each round.
- CsPta.Solver.AddReachable: states that the method becomes reachable, that the invariant is kept and that the state only grows (`Extends`). It does not state the exact call edges, PFG edges and work-list entries its recursive wiring adds.
- CsPta.Solver.VisitBody: states that every statement of the body is wired and that the state only grows. It does not state that nothing beyond that wiring is added.
- CsPta.Solver.VisitStmt: exact for New, Copy and static field accesses. For a static call it states that the edge is wired and the state only grows, not exactly what the recursive wiring of the callee adds.
- CsPta.Solver.NewCallEdge: states that the edge is added, its callee made reachable and its edges added, and that the state only grows. It does not state that nothing else is added by the recursive wiring of the callee.
- CsPta.Solver.ProcessCall: states that every call on the receiver is wired for the object and that the state only grows, not the exact set of call edges and entries added.
- CsPta.Solver.ReplayObject: states that the object is fully wired for the variable and that the state only grows, not the exact set of edges and entries added.
- CsPta.Solver.Initialize: states the entry methods, that the entry is reachable and that the invariant holds, not the exact state the wiring of the entry method produces.
- CsPta.Solver.Analyze: states what the loop keeps (the invariant, growth of the state) and when it drained, not the exact state of each round.
- TaintPta.Solver.AddReachable: states that the method becomes reachable, that the invariant is kept and that the state only grows (`Extends`). It does not state the exact call edges, PFG edges and work-list entries its recursive wiring adds.
- TaintPta.Solver.VisitBody: states that every statement of the body is wired and that the state only grows. It does not state that nothing beyond that wiring is added.
- TaintPta.Solver.VisitStmt: exact for New, Copy and static field accesses. For a static call it states that the edge is wired and the state only grows, not exactly what the recursive wiring of the callee adds.
- TaintPta.Solver.NewCallEdge: states that the edge is added, its callee made reachable and its edges added, and that the state only grows. It does not state that nothing else is added by the recursive wiring of the callee.
- TaintPta.Solver.ProcessCall: states that every call on the receiver is wired for the object and that the state only grows, not the exact set of call edges and entries added.
- TaintPta.Solver.ReplayObject: states that the object is fully wired for the variable and that the state only grows, not the exact set of edges and entries added.
- TaintPta.Solver.Initialize: states the entry methods, that the entry is reachable and that the invariant holds, not the exact state the wiring of the entry method produces.
- TaintPta.Solver.ProcessSite: like ProcessCall, states that one call site is wired for the object and that the state only grows, not the exact edges and entries added.
- TaintPta.Solver.ConnectEdge: states the PFG and TFG entries and the source taint of the edge but not the entries appended to the work list; ConnectStaticCall and ConnectInstanceCall, which it calls, state those exactly.
- TaintPta.Solver.Analyze: states what the loop keeps (the invariant, growth of the state) and when it drained, not the exact state of each round.
- CIPta.Solver.Solve, CsPta.Solver.Solve, TaintPta.Solver.Solve: the result is proved to be a solution of the analysis rules. That it is the least solution is not proved.
- A work-list entry holds the objects it carries as a value. In the source, the entry queued by `addPFGEdge` and `addTFGEdge` shares the source pointer's live points-to set, which may still grow before the entry is polled. What the model queues is a subset of what the source would propagate, and the extra objects reach the target anyway through the PFG edge.
- TaintPta.Solver.ConnectStaticCall, TaintPta.Solver.ConnectInstanceCall: the argument PFG edges are added before the TFG entries of the argument loop, not interleaved with them position by position. Only the order of work-list entries differs.
- The solvers rely on a well-formed program (`PtaIr.WellFormed`). First, every call resolves to a method of the program. `CallGraphs.resolveCallee` can return null for a call it cannot resolve, and the solvers then dereference it (A5/Solver.java:119-125 and 278-279, A6/Solver.java:183-192 and 299-305, A8/Solver.java:211-220 and 380-386). That null-callee failure is not modelled. Second, each call passes as many arguments as its resolved callee has parameters, so the loops bounded by the parameter count and those bounded by the argument count agree.
- Cha.Resolve, Cha.BuildCallGraph: a static call is resolved with the corrected `StaticTarget`, the nearest declaration on the superclass chain (see Findings). The code as written looks only at the named class and can add a null target. The null call edge and null queue entry that follow from that, and the failure when the null method is made reachable, are not modelled.
- CsPta.Solver.AddReachable, TaintPta.Solver.AddReachable: the recursion of reaching methods terminates because contexts come from the selector's finite set `Selector.contexts`. This holds for the k-limiting selectors Tai-e ships, and it is assumed of the selector (`SelectorWellFormed`).
- Dead-code detection takes the constant-propagation and live-variable results as inputs (`Results`). The live-variable analysis is not part of this model.

## Findings

| source | as written | input that shows it | evidently intended | confidence | as-written member | corrected member |
|---|---|---|---|---|---|---|
| A4/CHABuilder.java:83-84 | a static call is resolved with `getDeclaredMethod` on the class the call names, which sees only that class's own declarations | class B extends A, A declares static m, and the call is written `B.m()`: the named class B declares no m, so the result set holds null | resolve the static call to the declaration in the named class or its nearest superclass, which is the method the JVM runs | medium, not executed | Cha.InheritedStaticCallResolvesToNull | Cha.StaticTargetIsDeclaration |
