# DiFlow models

DiFlow serves diffusion workflows on a cluster: a workflow is authored once, expanded into a graph of
operator calls for each request, and executed by workers that exchange tensors. These modules model
the parts of it where correctness is an argument rather than a reading, and prove what those parts
promise. `dafny verify dfyconfig.toml` checks everything.

**The expander** turns a workflow with nested loops and conditionals into a flat graph for one
request. `Workflows` is its source language, `Expansion` the expander as functions, `Expander` the
same as objects that update a scope chain and shared tables in place, and `Interpreter` gives meaning
to workflows (directly) and to flat graphs (any valuation that solves every node's equation, so
emission order plays no part). `Simulation` and `WholeWorkflow` prove that the two meanings agree for
every interpretation of the operators; `ExpansionErrors`, `ExpansionOutputs`, `ExpansionChecks` and
`Kahn` treat failures, registered outputs and the final check; `Origins` tells from the workflow and
the request which node and iteration, or which request input, a name stands for; `RegionFormat` is
the wire form of regions; `Occurrences` is the profiler's extrapolation of node counts.

**The buddy allocator** hands out tensor memory. Three layers refine one another: blocks of bytes
(`BuddyHeap`, `BuddyArena`, `BuddyAllocator`), a tree of busy levels (`BuddyStatus`, `BuddyTree`) and
unary fields packed in a byte array (`BuddyLayout`, `BuddyBitset`). `BuddyArith` is the bit arithmetic.
`BuddyFit` and `BuddyPlacement` tell which free block is taken: best fit, in the tree and in bytes.

**The coordinator and its workers** are a step machine (`Protocol`): code between awaits is one step,
each worker's queue and its reports are FIFO, and every interleaving is a run. `ProtocolLifecycle`,
`ProtocolReports`, `ProtocolFrees`, `ProtocolLazy`, `ProtocolSafety` and `ProtocolStores` hold the
inductive invariants, `ProtocolTheorems` what follows for every reachable state. `Coordinator` and
`TensorStore` are the objects whose methods take those steps on dictionaries; `TaskInputs` is how each
single input of a task travels, by value or by location; `TaskGraphs`, `Dependencies` and `NodeDepth`
are the graph analyses; `Overload` is the admission test.

**Scheduling state** exists twice, as a reference core over dictionaries (`ReferenceCore`) and as a
compiled core over arrays (`CompiledCore`); `SchedulingTheorems` proves that they answer alike and
that queues are conserved. `Latencies` holds the two profile lookups. `ModelCache` is the worker's
cache of models in GPU memory.

## How the model reads the code

- Integers are unbounded. The allocator is created under `2 * memorySize <= SIZE_MAX`, which keeps
  every size it computes in range; pointers are offsets from the start of the arena; a byte's
  population count is the number of its set bits, and the table of row sizes is the function that fills it.
- Latencies are exact reals with infinity. Profile keys are tuples rather than joined strings; an
  entry without a shape is `(0, 0)`. `bisect_left` and `lower_bound` are one function, and batch sizes
  fit in 64 bits where the compiled core reads them.
- Operators of the Python expression language are an arbitrary partial function on values. Names
  derived from region ids are constructors, so distinct ids give distinct names; fresh uuids are a
  counter. A node's name carries its operator, which is what the prefix test looks at.
- Trip counts and predicates name no region id. The nested environment binds a region's own id and
  the induction variable is called differently, so an expression that named one would read a loop
  counter of an enclosing loop.
- The ready list of the model joins the queue of new tasks and the list of ready ones; dispatch takes any
  group of ready tasks to any worker in one step. A worker announces tensors one at a time and
  finishes the tasks of a group one by one, and notices may be taken in any order: more interleavings
  than the code has. A message carries the set of holders as it was when the message was sent.
- A lazy input is looked up in a table that the coordinator creates with the first tensor of a
  request. Where the lookup fails the code logs an error: the group has left the ready list, the
  worker's pending frees are cleared and nothing is sent. The step machine does the same (`Drop`);
  the theorems about safety and progress assume that no node reads lazily only (`Composes`), which
  by `DispatchNeverFails` and `TasksAreLostExactly` is exactly when it cannot happen.
- The coordinator subtracts whole lazy producers from what a node waits for. `NonLazyIsExact` says
  when that is right and `MixedProducerIsNotAwaited` gives a graph where it is not; the theorems
  about runs assume the condition.
- Used GPU memory is the sum of the base sizes of the resident models.
- The wire form keeps everything a region carries, so `RegionFormat` has its own fuller records;
  `Workflows` keeps what the expander looks at. An operator is known by the dictionary it prints, and
  the names of data types are their printed form.

Where the code does not do what its documentation or the natural reading promises, the exact
condition and an input are proved:

| where | holds exactly when | input |
|---|---|---|
| outputs after expansion | outputs that stand for one node and iteration, or one request input, share a label (`OutputsKeptExactly`) | a zero-trip loop whose initial carry is registered too (`ZeroTripLosesAnOutput`) |
| sending every queued task | no node reads tensors of its request lazily only (`DispatchNeverFails`, `TasksAreLostExactly`) | a consumer whose only input is lazy (`LazyFirstIsLost`) |
| every input of a task reaching its worker | inputs that read registered outputs are named as these are labelled (`InputsArriveExactly`) | an output registered as `preview` and read as `image` (`RegisteredUnderAnotherName`) |
| waiting for non-lazy producers | no producer feeds the node both ways (`NonLazyIsExact`) | `MixedProducerIsNotAwaited` |
| agreement of the two latency lookups | the batch size is at most 2^62 and no entry without a shape decides with a latency of its own (`LookupsAgreeExactly`) | `UnshapedEntryDecides` |
| room for a model that is already resident | its peak over its base fits on top of everything resident (`Cache.EnsureInGpu`) | `HitExceedsBudget` |
| nodes and regions over the wire | every node input is wired and keys match (`NodeRoundTrip`, `RegionRoundTrip`) | `UnwiredInputIsRefused` |
| an empty arena hands out its start | the block is larger than what lies beyond the largest power of two in the arena (`FirstPlacement`) | 96 bytes, of which the first block of 32 is not at the start (`TailComesFirst`) |
| two expansions tell the counts of all | what loops and branches contribute to each signature is linear in the steps (`OccurrencesAreExactly`) | two nested step loops (`NestedStepsNotLinear`) |

## Model

| member | source | states |
|---|---|---|
| WholeWorkflow.ExpansionPreservesMeaning | diflow/interface/workflow_expand.py:77-123 | for every well-scoped workflow, request and interpretation of the operators, the flat graph has a run, and in every run of it each registered output has the value that running the structured workflow directly gives it, zero-trip loops included |
| WholeWorkflow.WholeSimulation | diflow/interface/workflow_expand.py:84-110 | the flat nodes are a permutation of an order in which they can run, whose evaluation agrees with the direct run on every name defined in the workflow |
| WholeWorkflow.SimItems | diflow/interface/workflow_expand.py:87-101 | plain nodes emitted first and regions later still simulate the authoring order, item by item |
| WholeWorkflow.ArrangeIsPermutation | diflow/interface/workflow_expand.py:87-101 | putting each region's clones back where the region stood loses, adds and repeats no node |
| Simulation.SimProgram | diflow/interface/workflow_expand.py:207-223 | expanding a body and running it keep the scope, the table of region results and the values in agreement, for bodies of any nesting |
| Simulation.SimLoop | diflow/interface/workflow_expand.py:243-302 | from any iteration on, the carried references and the carried values agree after the remaining iterations |
| Simulation.SimBranch | diflow/interface/workflow_expand.py:305-329 | the results published for a conditional name the values of the branch that is taken |
| Interpreter.BranchTaken | diflow/interface/workflow_expand.py:314-329 | expanding or running a conditional is expanding or running its then branch if the predicate has a value other than 0, False, 0.0 and the empty string, its else branch if there is one and the value is one of those, and nothing otherwise |
| Interpreter.TripsAccepted | diflow/interface/workflow_expand.py:252-261 | a trip count is accepted if and only if it evaluates to an int, not a bool, that is not negative; which error is raised otherwise |
| Expressions.EvalDependsOnFreeInputs | diflow/interface/expr.py:177-186 | an expression's value, or its failure, depends on the inputs it names and on nothing else |
| FlatGraphs.RunNodesIsValuation | diflow/interface/workflow_expand.py:338-472 | evaluating an ordered graph in list order solves the equation of every node |
| FlatGraphs.ValuationUnique | diflow/interface/workflow_expand.py:338-472 | a graph that can be ordered has one solution for given inputs |
| ExpansionErrors.ExpansionFailsWithTheRun | diflow/interface/workflow_expand.py:243-329 | expansion is refused exactly when the direct run fails, and with the same error |
| ExpansionOutputs.RemapOrigins | diflow/interface/workflow_expand.py:104-110 | every registered output has an entry under its producer, and no entry is made up |
| Origins.OneTargetOneOrigin | diflow/interface/workflow_expand.py:104-110 | two names expand to one flat name if and only if following carries, captured values and taken branches leads them to one node and iteration, or one request input |
| ExpansionOutputs.OutputsKeptExactly | diflow/interface/workflow_expand.py:104-110 | all registered outputs keep their labels if and only if outputs of one origin, which the workflow and the request determine, carry one label |
| ExpansionOutputs.GuardedKeepsAll | diflow/interface/workflow_expand.py:104-110 | nothing is lost if loops with registered results run at least once and registered results name distinct outputs of nodes of their own bodies |
| ExpansionOutputs.ZeroTripLosesAnOutput | diflow/interface/workflow_expand.py:104-110 | a well-scoped workflow and request for which a registered output disappears |
| ExpansionChecks.CheckInvariants | diflow/interface/workflow_expand.py:345-427 | the check passes if and only if names are unique and carry their operators, no placeholder is left, every edge and output is supplied or produced, and there is no dependency cycle |
| ExpansionChecks.ExpansionIsSound | diflow/interface/workflow_expand.py:345-427 | every expansion of a well-scoped workflow passes the check |
| ExpansionChecks.FindDuplicate | diflow/interface/workflow_expand.py:360-367 | reports a name exactly when some two nodes share one |
| ExpansionChecks.FindMisnamed | diflow/interface/workflow_expand.py:369-375 | reports a node exactly when some node's name does not carry its operator |
| ExpansionChecks.FindBadEdge | diflow/interface/workflow_expand.py:388-409 | reports a node exactly when some edge names a placeholder or is neither supplied nor produced |
| Kahn.CheckAcyclic | diflow/interface/workflow_expand.py:430-472 | accepts exactly the graphs without a cycle of two or more nodes; otherwise the stuck nodes are what no settling order reaches, each waiting for another |
| Kahn.SettledHasNoCycle | diflow/interface/workflow_expand.py:430-472 | a settling order of all nodes excludes every cycle |
| Kahn.StuckHasCycle | diflow/interface/workflow_expand.py:430-472 | a nonempty set in which every node waits for another of the set contains a cycle |
| Kahn.Dependents | diflow/interface/workflow_expand.py:453-457 | each node's dependents are the nodes that list it, and only those |
| Expander.Scope.Lookup | diflow/interface/workflow_expand.py:53-59 | walking the chain finds the innermost binding of a name |
| Expander.Scope.Bind | diflow/interface/workflow_expand.py:36-62 | binding a name in an inner scope changes no enclosing scope |
| Expander.Tables.CloneAndEmit | diflow/interface/workflow_expand.py:172-199 | one freshly named node is emitted, rewired and with the outputs its operator declares, or nothing is and the mismatch is reported |
| Expander.Tables.ExpandProgram | diflow/interface/workflow_expand.py:207-223 | updating scope and tables in place leaves what the functional expansion returns, with the same error if any |
| Expander.Tables.ExpandLoop | diflow/interface/workflow_expand.py:243-302 | the loop over iterations, each in a child scope, leaves the outer scope untouched and the tables as the functional expansion says |
| Expander.Tables.ExpandCond | diflow/interface/workflow_expand.py:305-329 | one branch is expanded in its own scope, none if the predicate is false and there is no other |
| Expander.Tables.PatchEmitted | diflow/interface/workflow_expand.py:98-103 | exactly the inputs that name a region result are redirected, in every emitted node |
| Expander.ExpandWorkflow | diflow/interface/workflow_expand.py:77-123 | returns the expansion if it passes the check and the first violation otherwise; on well-scoped workflows only an evaluation error can make it fail |
| RegionFormat.ExprRoundTrip | diflow/interface/expr.py:188-198 | parsing undoes printing exactly on the expressions that can be constructed |
| RegionFormat.ParsedExprOk | diflow/interface/expr.py:188-373 | the parser constructs no other expression, whatever the dictionary |
| RegionFormat.ParsedMeaning | diflow/interface/expr.py:188-373 | a parsed expression has the value that the dictionary stands for, its lhs applied before its rhs |
| RegionFormat.PrintedMeaning | diflow/interface/expr.py:181-372 | the dictionary printed for an expression stands for the value the expression has |
| RegionFormat.NodeRoundTrip | diflow/interface/workflow_node.py:76-108 | a node survives printing and parsing if and only if all its inputs are wired |
| RegionFormat.UnwiredInputIsRefused | diflow/interface/workflow_node.py:76-108 | a printed node with an unwired input is refused by the parser |
| RegionFormat.RegionRoundTrip | diflow/interface/region.py:265-409 | a region, with nested programs and expressions, comes back equal if and only if its keys match at every level, its expressions can be constructed and its nodes are wired |
| RegionFormat.ParsedRegionPrintable | diflow/interface/region.py:280-409 | whatever dictionary the parser accepts, the region it returns meets that condition |
| RegionFormat.ParsedRegionIsStable | diflow/interface/region.py:265-409 | printing and parsing what was parsed changes nothing |
| RegionFormat.LoopsThatBuild | diflow/interface/control_flow.py:159-196 | `for_range` succeeds if and only if something is carried, the template has `{i}` somewhere in it, and the body returns exactly the carried keys |
| RegionFormat.CondsThatBuild | diflow/interface/control_flow.py:257-275 | `cond` succeeds if and only if both branches return the same keys, a missing or silent branch returning none |
| RegionFormat.BuiltLoopRoundTrip | diflow/interface/control_flow.py:126-216 | a loop that `for_range` builds passes every key check and comes back exactly when its body does |
| RegionFormat.BuiltCondRoundTrip | diflow/interface/control_flow.py:219-291 | a conditional that `cond` builds comes back exactly when both its bodies do |
| Occurrences.ExpansionCounts | diflow/interface/workflow_expand.py:207-329 | how many nodes of a signature an expansion has is told by the workflow and the request: loops multiply, conditionals choose |
| Occurrences.OccurrencesAreExactly | benchmark_ops/profiler.py:77-113 | constant plus slope times n is the number of nodes of every signature, for every n that expands, if and only if what loops and branches contribute to each signature is linear in n |
| Occurrences.SolveOccurrences | benchmark_ops/profiler.py:77-113 | the two expansions and the integer division yield that solution, exact under exactly that condition |
| Occurrences.LinearTripsSuffice | benchmark_ops/profiler.py:77-113 | the condition holds if trip counts are linear in the steps or independent of them, loops that depend on the steps do not nest and no predicate reads the steps |
| Occurrences.OneLessIsAffine | diflow/interface/expr.py:107-115 | the derived trip count of one step fewer is linear in the steps |
| Occurrences.EveryStepCountExpands | diflow/interface/workflow_expand.py:243-262 | with no derived trip counts, one expansion that succeeds for some positive step count tells that all do |
| Occurrences.CountNodes | benchmark_ops/profiler.py:99-104 | the dictionary counts the nodes of every signature, zero for those not in it |
| Occurrences.NestedStepsNotLinear | benchmark_ops/profiler.py:77-113 | for two nested step loops no constant and slope are right for all step counts |
| BuddyBitset.SetRange | csrc/data_engine/allocator/buddy_alloc.h:2059-2069 | sets the bits from one position to another, across bytes, and no other bit |
| BuddyBitset.ClearRange | csrc/data_engine/allocator/buddy_alloc.h:2071-2082 | clears those bits and no other |
| BuddyBitset.CountRange | csrc/data_engine/allocator/buddy_alloc.h:2084-2097 | counts the set bits of the range, first, last and whole bytes together |
| BuddyBitset.WriteField | csrc/data_engine/allocator/buddy_alloc.h:1673-1686 | the field holds the value in unary, and every bit outside the field is as before |
| BuddyBitset.ReadField | csrc/data_engine/allocator/buddy_alloc.h:1688-1693 | reading returns the value last written |
| BuddyBitset.FieldAtLeast | csrc/data_engine/allocator/buddy_alloc.h:1695-1697 | one bit tells whether the stored value is at least a bound |
| BuddyLayout.ComputeSizeForOrder | csrc/data_engine/allocator/buddy_alloc.h:1419-1428 | the loop adds up the bits of all rows whose fields are wider |
| BuddyLayout.InternalLocationIsLocation | csrc/data_engine/allocator/buddy_alloc.h:1430-1452 | the closed form finds the place of a node's field when the fields follow one another in index order |
| BuddyLayout.LocationDisjoint | csrc/data_engine/allocator/buddy_alloc.h:1419-1452 | fields of different nodes do not overlap |
| BuddyLayout.LocationInBounds | csrc/data_engine/allocator/buddy_alloc.h:1419-1477 | every field lies within the reserved bits |
| BuddyLayout.LocationSibling | csrc/data_engine/allocator/buddy_alloc.h:1785-1808 | stepping one field width left or right reaches the sibling's field |
| BuddyStatus.StatusMeaning | csrc/data_engine/allocator/buddy_alloc.h:1752-1808 | a status is at most k if and only if a wholly free node lies k levels below |
| BuddyStatus.FullMeaning | csrc/data_engine/allocator/buddy_alloc.h:1752-1808 | a status is at its maximum if and only if nothing below can be handed out at any size |
| BuddyStatus.RepairStep | csrc/data_engine/allocator/buddy_alloc.h:1785-1808 | recomputing a parent moves the one possibly wrong status a level up, and if the parent does not change all statuses are right: stopping early is sound |
| BuddyStatus.DescendFindsFree | csrc/data_engine/allocator/buddy_alloc.h:1810-1856 | whenever the root's status admits a depth, the search ends on a wholly free node of that depth |
| BuddyFit.BestFit | csrc/data_engine/allocator/buddy_alloc.h:1810-1856 | below any node, occupying the node the search ends on leaves a status no higher than occupying any other wholly free node of that depth |
| BuddyFit.SearchLeavesMost | csrc/data_engine/allocator/buddy_alloc.h:1810-1856 | every size that would still be available after some choice of a free node of the target depth is available after the choice the search makes |
| BuddyFit.SearchOnPath | csrc/data_engine/allocator/buddy_alloc.h:1827-1853 | at every node on its way the search goes left exactly when the left half has a free node of the target depth and, if the right one has too, the right half has everything free that the left one has |
| BuddyFit.PathUnique | csrc/data_engine/allocator/buddy_alloc.h:1827-1853 | that way determines the node: no two nodes of one depth lie on it |
| BuddyTree.OtherFieldUnchanged | csrc/data_engine/allocator/buddy_alloc.h:1673-1686 | writing one node's field leaves the status of every other node |
| BuddyTree.Tree.WriteStatus | csrc/data_engine/allocator/buddy_alloc.h:1673-1686 | on the packed bytes it is an assignment to one element of the array of statuses |
| BuddyTree.Tree.UpdateParentChain | csrc/data_engine/allocator/buddy_alloc.h:1785-1808 | restores the meaning of every status above a changed node, despite the early exit |
| BuddyTree.Tree.Mark | csrc/data_engine/allocator/buddy_alloc.h:1757-1766 | occupies exactly the given wholly free node and keeps every status meaningful |
| BuddyTree.Tree.Release | csrc/data_engine/allocator/buddy_alloc.h:1768-1783 | frees the node if and only if it is itself occupied, and keeps every status meaningful |
| BuddyTree.Tree.FindFree | csrc/data_engine/allocator/buddy_alloc.h:1810-1856 | returns a wholly free position of the target depth exactly when there is one, and then the one that leaves the most room, found on the way described at `SearchOnPath` |
| BuddyArith.HighestBitPosition | csrc/data_engine/allocator/buddy_alloc.h:2152-2172 | the table-driven search returns the number of binary digits |
| BuddyArith.CeilingPowerOfTwo | csrc/data_engine/allocator/buddy_alloc.h:2174-2177 | the smallest power of two at least the input, 1 for 0 |
| BuddyBlocks.FreePlusUsed | csrc/data_engine/allocator/buddy_alloc.h:738-756 | what the free-size walk adds up and what is occupied make up the whole tree |
| BuddyHeap.OccupiedDisjoint | csrc/data_engine/allocator/buddy_alloc.h:767-803 | different occupied nodes are disjoint pieces of memory |
| BuddyHeap.FreeIffDisjoint | csrc/data_engine/allocator/buddy_alloc.h:1810-1856 | a node is wholly free if and only if its memory meets no occupied memory |
| BuddyArena.FreeInsideArena | csrc/data_engine/allocator/buddy_alloc.h:1199-1248 | with the tail masked, whatever is free lies inside the arena |
| BuddyArena.MaskHalf | csrc/data_engine/allocator/buddy_alloc.h:1199-1248 | each step of the masking loop keeps the tail's end masked and moves to the half where the boundary is |
| BuddyArena.MaskExactly | csrc/data_engine/allocator/buddy_alloc.h:1199-1248 | the last node masked makes the masked nodes cover exactly the units beyond the arena |
| BuddyArena.NothingFits | csrc/data_engine/allocator/buddy_alloc.h:767-803 | if no node of a row is free, no aligned block of that size fits between the live blocks |
| BuddyPlacement.BestPlacement | csrc/data_engine/allocator/buddy_alloc.h:1810-1856 | in bytes and blocks: a block of any size that would fit somewhere after some placement of the new block fits after the one chosen |
| BuddyPlacement.FirstPlacement | csrc/data_engine/allocator/buddy_alloc.h:1199-1248 | an empty arena hands out its start if and only if the block is larger than what lies beyond the largest power of two in the arena |
| BuddyPlacement.TailComesFirst | csrc/data_engine/allocator/buddy_alloc.h:1827-1853 | an arena and a first block that is not at its start |
| BuddyArena.TargetIsOccupied | csrc/data_engine/allocator/buddy_alloc.h:1156-1186 | the climb ends on a node that was handed out exactly when a live block starts at the address, and on nothing else that could be released |
| BuddyArena.BlocksWellPlaced | csrc/data_engine/allocator/buddy_alloc.h:767-803 | live blocks are pairwise disjoint and inside the arena |
| BuddyArena.UsedIsTotal | csrc/data_engine/allocator/buddy_alloc.h:738-756 | the bytes counted as used are the sizes of the live blocks added up |
| BuddyAllocator.Init | csrc/data_engine/allocator/buddy_alloc.h:543-591 | refuses exactly null, equal or misaligned addresses, an alignment that is no power of two or an arena below one block; otherwise the arena, trimmed to the alignment, has no live block |
| BuddyAllocator.Buddy.constructor | csrc/data_engine/allocator/buddy_alloc.h:1199-1248 | the masked nodes cover exactly the tail up to the next power of two, and nothing else is taken |
| BuddyAllocator.Buddy.DepthForSize | csrc/data_engine/allocator/buddy_alloc.h:1108-1120 | the row chosen has the smallest blocks that hold the request |
| BuddyAllocator.Buddy.PositionForAddress | csrc/data_engine/allocator/buddy_alloc.h:1156-1186 | the climb returns the lowest node with a nonzero status if the address is its start, and nothing otherwise |
| BuddyAllocator.Buddy.Malloc | csrc/data_engine/allocator/buddy_alloc.h:767-803 | adds one block, aligned, inside the arena, apart from all others, of a size s with max(n, alignment) <= s < 2 max(n, alignment); fails only if the request exceeds the arena or no such block fits, and then changes nothing; no other placement leaves room for a larger block, and the first block of an empty arena is at its start unless it fits into what lies beyond the largest power of two |
| BuddyAllocator.Buddy.Free | csrc/data_engine/allocator/buddy_alloc.h:903-930 | removes exactly the live block that starts at the pointer; for any other pointer nothing changes |
| BuddyAllocator.Buddy.Walk | csrc/data_engine/allocator/buddy_alloc.h:1730-1750 | the next position in preorder, past the current subtree when going up, and done only at the end |
| BuddyAllocator.Buddy.ArenaFreeSize | csrc/data_engine/allocator/buddy_alloc.h:738-756 | the walk terminates, and free size plus live blocks is the arena size |
| BuddyAllocator.Buddy.Sound | csrc/data_engine/allocator/buddy_alloc.h:767-930 | in every state that calls can reach, live blocks are disjoint, inside the arena, and add up to the bytes allocated |
| TaskGraphs.NonLazyIsExact | diflow/backend/coordinator.py:298-316 | the nodes waited for are exactly the non-lazy producers if and only if no producer feeds the node both ways |
| TaskGraphs.MixedProducerIsNotAwaited | diflow/backend/coordinator.py:298-316 | a graph in which a node does not wait for a producer of one of its non-lazy inputs |
| Dependencies.GetNodeDependencies | diflow/backend/dependency.py:23-47 | each node's entry is the set of other nodes that output one of its inputs, or one of its lazy inputs |
| Dependencies.BuildTensorReferenceCount | diflow/backend/dependency.py:95-110 | counts, for each tensor, the inputs that read it, and lists exactly the tensors that are read |
| NodeDepth.ComputeNodeDepth | diflow/backend/dependency.py:61-92 | on every acyclic graph, each node gets one plus its shortest distance to a sink, although nodes may be queued several times |
| NodeDepth.HeadExact | diflow/backend/dependency.py:78-91 | the head of the queue is exact when its node has not been settled: settling on first pop is right |
| NodeDepth.ReachesSink | diflow/backend/dependency.py:61-92 | in an acyclic graph every node reaches a sink, so none is left without a depth |
| ProtocolTheorems.FetchIsSafe | diflow/backend/worker.py:443-575 | in every reachable state, whatever a delivered or running task reads is located or awaited lazily, and every worker named as a location holds the tensor |
| ProtocolTheorems.LazyFetchIsSafe | diflow/backend/worker.py:536-560 | the source named in a lazy notice still holds the tensor until the consumer's reads are accounted for |
| ProtocolTheorems.FreeIsSafe | diflow/backend/worker.py:415-427 | no worker is told to drop a tensor that an unfinished node reads |
| ProtocolTheorems.StartFindsAll | diflow/backend/worker.py:415-575 | a task group that starts finds what it was told is local, after the frees that came with it |
| ProtocolTheorems.ToldExactlyOnce | diflow/backend/coordinator.py:486-519 | each recorded holder is told to free a consumed tensor once, when its last reader is accounted for, and otherwise never |
| ProtocolTheorems.NoLeak | diflow/backend/coordinator.py:833-844 | once a worker has reported everything, each consumed tensor left in its store is on its way to being freed |
| ProtocolTheorems.LazyWakeUp | diflow/backend/coordinator.py:415-456 | for each dispatched lazy input exactly one of attached, registered and notified holds; a registered one whose tensor has arrived has a notification pending; no notice is repeated |
| ProtocolTheorems.DispatchNeverFails | diflow/backend/coordinator.py:859-894 | every queued task can be composed in every reachable state if and only if no node reads tensors of its request lazily only |
| ProtocolTheorems.FailedDispatchLoses | diflow/backend/coordinator.py:833-916 | one failed lookup loses the whole group, which is queued nowhere and with no worker any more, and the worker's pending frees |
| ProtocolTheorems.LostForever | diflow/backend/coordinator.py:833-933 | a lost task stays lost in every run, and its request is never declared finished |
| ProtocolTheorems.TasksAreLostExactly | diflow/backend/coordinator.py:833-916 | some run loses a task if and only if some node reads tensors of its request lazily only |
| ProtocolTheorems.LazyFirstIsLost | diflow/backend/coordinator.py:833-916 | a producer and a consumer with one lazy input: a run after which the request never finishes |
| ProtocolTheorems.QueuedOnce | diflow/backend/coordinator.py:458-484 | in any run no node is queued twice |
| ProtocolTheorems.QueueingIsExact | diflow/backend/coordinator.py:332-346 | the nodes queued in a run are exactly those whose non-lazy prerequisites have all completed |
| ProtocolTheorems.SomethingToDo | diflow/backend/coordinator.py:458-484 | while an acyclic request is unfinished, some queued task of it is ready or with a worker: no stuck state |
| ProtocolTheorems.NoDeadlock | diflow/backend/coordinator.py:458-484 | without lazy inputs and with at least one worker, an unfinished acyclic request always has a step that can be taken |
| ProtocolTheorems.FinishedMeansDone | diflow/backend/coordinator.py:918-933 | a request with nodes is declared finished exactly when all of them have completed |
| ProtocolTheorems.CompletionsProgress | diflow/backend/coordinator.py:458-484 | completed nodes stay completed and every completion makes the unfinished strictly fewer |
| ProtocolSafety.StepSafe | diflow/backend/coordinator.py:415-933 | each of the ten steps keeps the invariant, in every interleaving |
| ProtocolSafety.RunSafe | diflow/backend/coordinator.py:415-933 | every run from a state that satisfies the invariant ends in one |
| ProtocolLifecycle.NeverStuck | diflow/backend/coordinator.py:458-484 | while an acyclic request is unfinished some queued node of it is not completed, and that node is ready or with a worker |
| ProtocolFrees.UpdateRetires | diflow/backend/coordinator.py:486-514 | an update retires exactly the tensors whose last reader it accounts for, none of them retired before |
| ProtocolFrees.UpdateTells | diflow/backend/coordinator.py:486-519 | after an update each worker has been told exactly the retired tensors it holds, each once |
| ProtocolFrees.ReceivedNotRetired | diflow/backend/coordinator.py:697-715 | a report still under way never concerns a tensor that has been retired |
| ProtocolLazy.NotifyOnce | diflow/backend/coordinator.py:415-456 | a notification repeats no notice already sent |
| ProtocolStores.RunStores | diflow/backend/worker.py:402-890 | in every run the coordinator knows or will hear of each tensor a worker stores, and no worker stores what it was told to free |
| Coordinator.Coordinator.BuildDependencyGraph | diflow/backend/coordinator.py:298-330 | the tables of a request agree with its graph, and reference counts are the number of reads |
| Coordinator.Coordinator.Submit | diflow/backend/coordinator.py:1060-1086 | arriving requests are registered and what waits for nothing is queued, each node once |
| Coordinator.Coordinator.IsTaskReady | diflow/backend/coordinator.py:332-346 | ready if and only if every non-lazy prerequisite has completed |
| Coordinator.Coordinator.TensorReady | diflow/backend/coordinator.py:697-715 | the holder is recorded and one notification is started |
| Coordinator.Coordinator.TaskComplete | diflow/backend/coordinator.py:717-800 | a completion records its tensors before it queues what it makes ready, starts one update, and declares the request finished when it is |
| Coordinator.Coordinator.MarkNodeCompleted | diflow/backend/coordinator.py:458-484 | among the successors exactly those not queued before and waiting for nothing more are queued |
| Coordinator.Coordinator.UpdateFreeTensorDict | diflow/backend/coordinator.py:486-519 | counts drop by the node's reads, and each holder of a tensor that reached zero is listed for it once |
| Coordinator.Coordinator.NotifyLazyInputAvailable | diflow/backend/coordinator.py:415-456 | every task registered for the tensor gets one notice, and the registration is gone |
| TaskInputs.PrepareTaskInputs | diflow/backend/coordinator.py:348-412 | the message parts after all inputs: by value, by location or awaited, a registered output under its label |
| TaskInputs.GatherInputs | diflow/backend/worker.py:476-575 | every input is found by location, lazily or by value, or the first that is nowhere is refused |
| TaskInputs.InputsArriveExactly | diflow/backend/coordinator.py:348-412 | each input arrives under its own name and as the operator should get it if and only if all non-lazy ones are available and those that read registered outputs are named as these are labelled |
| TaskInputs.RegisteredUnderAnotherName | diflow/backend/coordinator.py:376-382 | a node whose worker refuses it, because its input travels under the output's label |
| Coordinator.Coordinator.PrepareJob | diflow/backend/coordinator.py:348-413 | each input read is located, or lazily awaited |
| Coordinator.Coordinator.ScheduleTaskGroup | diflow/backend/coordinator.py:833-916 | if all lookups succeed the message carries the worker's pending frees, which are then cleared, and the group's tasks, and every lazy input not located is registered; otherwise nothing is sent, the group is gone from the ready list, the frees are cleared and the tasks before the failing one stay registered |
| Coordinator.Coordinator.IsRequestComplete | diflow/backend/coordinator.py:918-933 | comparing two counts tells that all nodes of the request have completed |
| Coordinator.OpenIsCountable | diflow/backend/coordinator.py:486-514 | no count can go below zero while the protocol's invariant holds |
| TensorStore.Store.Free | diflow/backend/worker.py:415-427 | exactly the listed tensors are dropped, those not there being skipped |
| TensorStore.Store.Gather | diflow/backend/worker.py:443-575 | every located tensor is at hand afterwards, unless one said to be local is not there |
| TensorStore.Store.Begin | diflow/backend/worker.py:415-575 | both phases of a group: nothing is missing if what is said to be local is there once the frees are done |
| Overload.EstimateIsLowerBound | diflow/backend/coordinator.py:975-1000 | no schedule with one task at a time per worker and per request finishes before the estimate |
| Overload.SerialFits | diflow/backend/coordinator.py:975-1000 | tasks that run one after another take no more than the time they run in |
| Overload.WorkersFit | diflow/backend/coordinator.py:975-1000 | the tasks of w workers amount to at most w times the finish time |
| Overload.CompletionTime | diflow/backend/coordinator.py:975-1000 | the larger of work per worker and longest request, infinite without workers |
| Overload.IsSystemOverloaded | diflow/backend/coordinator.py:935-1006 | when a request is refused with any worker at all, no schedule of the work in flight meets the deadline; never while the check is off, without a deadline, or with more workers than requests |
| Latencies.NearestReference | diflow/backend/scheduler/scheduling_core.py:51-61 | the latency at a nearest profiled resolution, the smallest of those equally near, infinite if there is none |
| Latencies.NearestCompiled | csrc/scheduling/scheduling_core.cpp:93-118 | the same value, from a running best distance and best latency |
| Latencies.NearestUnique | csrc/scheduling/scheduling_core.cpp:93-118 | there is one such value, whatever order the profile is traversed in |
| Latencies.DistanceMeans | diflow/backend/scheduler/scheduling_core.py:51-55 | the distance is 0 exactly for the profiled shape itself and grows by what the query moves away in height or in width |
| Latencies.NearestInWidth | csrc/scheduling/scheduling_core.cpp:104-117 | of the entries of the query's height, the one taken is a nearest in width |
| Latencies.NearestNotBeyond | csrc/scheduling/scheduling_core.cpp:104-117 | no other entry lies, in height and in width, between the query and the entry taken |
| Latencies.NextPowerReference | diflow/backend/scheduler/scheduling_core.py:507-510 | the smallest power of two at least the batch size |
| Latencies.NextPowerCompiled | csrc/scheduling/scheduling_core.cpp:47-59 | the same, and a refusal exactly beyond 2^62; no intermediate value overflows |
| Latencies.LookupReference | diflow/backend/scheduler/scheduling_core.py:36-61 | an exact shape before a nearest one |
| Latencies.LookupCompiled | csrc/scheduling/scheduling_core.cpp:74-119 | an exact shape, then an entry without a shape, then a nearest one |
| Latencies.LookupsAgreeExactly | csrc/scheduling/scheduling_core.cpp:74-119 | the two lookups agree if and only if the batch is one both accept and no entry without a shape decides otherwise |
| Latencies.UnshapedEntryDecides | csrc/scheduling/scheduling_core.cpp:87-91 | a profile and a query for which the two lookups differ |
| Latencies.SumSplit | diflow/backend/scheduler/scheduling_core.py:320-326 | a sum of latencies does not depend on the order, with infinity absorbing |
| Scheduling.SourceFor | diflow/backend/scheduler/scheduling_core.py:224-228 | the first source on the destination's host, or the first of all when there is none |
| Scheduling.TransferLookup | diflow/backend/scheduler/scheduling_core.py:208-214 | the overhead of the smallest profiled block that holds the size, or of the largest |
| Scheduling.ComputeTransfer | csrc/scheduling/scheduling_core.cpp:420-456 | the loop adds up one transfer for each tensor that has a source elsewhere |
| SchedulingTheorems.TransfersAddUp | diflow/backend/scheduler/scheduling_core.py:216-238 | the transfer latency is the sum of what fetching each tensor costs, in any order |
| SchedulingTheorems.HostDecidesProfile | csrc/scheduling/scheduling_core.cpp:438-454 | a tensor with a source on the worker's host costs the same under any profile between hosts, one without under any profile within a host |
| SchedulingTheorems.MillionthOfProfile | diflow/backend/scheduler/scheduling_core.py:208-214 | the transfer latency of a block is a millionth of the overhead profiled for the first block size that holds it, or for the last |
| ReferenceCore.Core.SelectAndReserve | diflow/backend/scheduler/scheduling_core.py:282-299 | an existing reservation is returned unchanged; otherwise the chosen worker is charged, or nobody is if every cost is infinite |
| ReferenceCore.Core.ReserveOnWorker | diflow/backend/scheduler/scheduling_core.py:301-314 | refuses an unknown worker and a task reserved elsewhere, and otherwise charges the worker once |
| ReferenceCore.Core.Complete | diflow/backend/scheduler/scheduling_core.py:316-332 | drops the reservation and takes it out of its worker's queue only |
| CompiledCore.Core.SelectAndReserve | csrc/scheduling/scheduling_core.cpp:230-284 | the same on arrays, where the search starts from an infinite cost and keeps no worker until one is cheaper |
| CompiledCore.Core.ReserveOnWorker | csrc/scheduling/scheduling_core.cpp:286-332 | the same on arrays, by worker index |
| CompiledCore.Core.Complete | csrc/scheduling/scheduling_core.cpp:334-358 | the same on arrays |
| SchedulingTheorems.BestIsFirstCheapest | diflow/backend/scheduler/scheduling_core.py:287-296 | the chosen worker is eligible, no eligible one is cheaper, and every eligible one before it is dearer; none is chosen only if none is eligible |
| SchedulingTheorems.QueueAfterIsTotal | diflow/backend/scheduler/scheduling_core.py:240-299 | the cost compared is what the chosen worker's queue becomes; other queues, active models and reservations stay |
| SchedulingTheorems.EachPartCounts | diflow/backend/scheduler/scheduling_core.py:262-269 | what queue, transfer, loading or execution grows by, the total grows by |
| SchedulingTheorems.DominatedNotChosen | diflow/backend/scheduler/scheduling_core.py:287-296 | a worker is never chosen while an eligible one costs no more in any part and less in one |
| SchedulingTheorems.LongerQueueNotChosen | diflow/backend/scheduler/scheduling_core.py:287-296 | of two eligible workers that cost the same otherwise, the one with the longer queue is never chosen |
| SchedulingTheorems.NobodyChosen | csrc/scheduling/scheduling_core.cpp:248-283 | no worker is chosen if and only if each is beyond the threshold or some part of its cost is infinite |
| SchedulingTheorems.UnprofiledModelGoesNowhere | diflow/backend/scheduler/scheduling_core.py:246-250 | a task whose model has no profile is placed nowhere and changes nothing |
| SchedulingTheorems.FreeTaskTakesShortestQueue | diflow/backend/scheduler/scheduling_core.py:282-299 | a task that needs neither data nor a model goes to a shortest queue, and leaves it as long as it was |
| SchedulingTheorems.ActiveDecidesLoading | diflow/backend/scheduler/scheduling_core.py:334-339 | after a worker's active models are updated it charges nothing for loading those and the profiled latency for others, and nothing else changes for it or anyone |
| SchedulingTheorems.FirstModelsDecideLoading | diflow/backend/scheduler/scheduling_core.py:184-205 | the same for the models a worker starts with, and all queues start empty |
| SchedulingTheorems.RetriesAreIdempotent | diflow/backend/scheduler/scheduling_core.py:282-314 | asking again for a task that holds a reservation changes nothing and gets the same answer |
| SchedulingTheorems.InitConserved | diflow/backend/scheduler/scheduling_core.py:184-205 | a new core satisfies the conservation law from which every run starts |
| SchedulingTheorems.RunConserved | diflow/backend/scheduler/scheduling_core.py:274-339 | after any sequence of calls each queue is the sum of its live reservations, infinity absorbing, and all queues are zero when none is left |
| SchedulingTheorems.CompleteUndoesReserve | diflow/backend/scheduler/scheduling_core.py:301-332 | reserving and completing restores the state, infinite reservations included; the clamp at zero never acts |
| SchedulingTheorems.CoresAgree | csrc/scheduling/scheduling_core.cpp:230-369 | with shaped profiles every sequence of calls yields the same workers, costs, refusals and states from both cores |
| SchedulingTheorems.Lockstep | csrc/scheduling/scheduling_core.cpp:230-369 | the two objects, called in turn from equal states, answer alike at every call and end in equal states |
| ModelCache.Cache.Evict | diflow/backend/worker.py:1182-1196 | the shortest least recently used prefix that frees enough is moved to CPU memory, or everything if nothing does |
| ModelCache.Cache.EnsureInGpu | diflow/backend/worker.py:1206-1247 | a model that is not resident is loaded after evicting that prefix; a resident one becomes the most recently used; the others and its peak then fit the budget, for a resident one if and only if its excess over its base fitted before; refused exactly when its peak exceeds the budget |
| ModelCache.Cache.MoveToEnd | diflow/backend/worker.py:1206-1247 | only the position of the used model changes |
| ModelCache.Cache.EvictFirst | diflow/backend/worker.py:1118-1142 | the least recently used model changes sides; no model is ever on both |
| ModelCache.MakesRoom | diflow/backend/worker.py:1182-1204 | evicting the prefix leaves room for any peak that fits the budget alone |
| ModelCache.NoFewerVictims | diflow/backend/worker.py:1182-1196 | with any victim fewer the peak would not have fit |
| ModelCache.LoadFitting | diflow/backend/worker.py:1206-1247 | a model that fits beside the residents is loaded without evicting any |
| ModelCache.UseAll | diflow/backend/worker.py:1206-1247 | with bases within peaks the residents stay within the budget after every use of every sequence of uses |
| ModelCache.HitExceedsBudget | diflow/backend/worker.py:1206-1247 | two models are loaded and the first is used again with a peak that no longer fits next to the second |

## Left out

- TensorStore.Store.Gather: does not model the bytes of a tensor, only which tensors are at hand.
- Coordinator.Coordinator.PrepareJob: locates every produced tensor that is recorded; that registered outputs and request values travel by value is the subject of `TaskInputs`, apart from the step machine.
- Coordinator.Coordinator.Submit: does not model a request without nodes, which never raises the event it waits for; such a request is never declared finished.
- Overload.IsSystemOverloaded: does not model batching, since the estimate charges every task by itself, nor the progress of running tasks: they count at their full profiled latency, so the bound is about the work in flight restarted from zero.
- BuddyAllocator.Init: does not model other word sizes than 8, the embedding of the allocator's own tables in the arena, nor relative addressing.
- BuddyAllocator.Buddy.PositionForAddress: does not model addresses outside the arena, which `Free` ignores before it looks them up.
- ModelCache.Cache.EnsureInGpu: does not model patches applied to a resident model, nor what a failed load leaves behind.
- RegionFormat.NodeRoundTrip: does not model the construction of an operator from its dictionary.
- Resizing, reallocation, range reservation, safe release, fragmentation and change tracking of the buddy allocator; the code that blocks until memory is free.
- `SmallObjectAllocator`, `PagedAllocator` and `ComplicatedAllocator`, which the backend does not use.
- Failures while sending, the deletion of a finished request's tables, and results of nodes that are not tensors.
- Fairness: that a lazy consumer sharing a worker with its producer ever runs.
- Worker selection policies other than the two cores, task grouping, the number of available workers, snapshots, and the largest profiled batch size.
- The mutex of the compiled core: a call is one step.
- Prefetching, loading of schedulers and adapters, and the operators themselves.
- Rounding of floating-point latencies.
- The formatting of names: `iv_name_template` and uuids are injective constructors; types are their printed names.
