# Verified models of the AIE router, kernels and configuration encoders

This project models the parts of the MLIR-based AI Engine toolchain whose correctness rests on arguments longer than one
function, and proves those arguments with Dafny. `dafny verify dfyconfig.toml` checks all of it.

- **Stream-switch router** (`SwitchGraph`, `FlowBalance`, `RouteConstraints`, `RouteObjective`, `RouteWalk`,
  `RouteTrace`, `RouteSolution`, `RouteProperties`, `ChannelUse`, `RouteGuarantees`, `RouterObject`, `RouteIsolation`,
  `RouteLimits`). The grid of switchboxes is a directed graph with channel counts. Flow-balance constraints contain
  simple paths, optimal assignments are simple paths, and the backward trace turns paths that may disagree into one tree
  for each source. Exactly which channels are handed out on each wire is known from the channels taken before and the
  sources that use it; from that follow the conditions under which they exist in the hardware and under which nobody
  else listens to them.
- **Compute kernels.** Matrix multiplication in five layouts and unroll factors (`MatmulKernels`, `MatmulLayouts`,
  `MatmulEndToEnd`), the matrix-vector kernel (`MatVec`), the cascade pipeline of cores (`CascadeKernels`,
  `CascadePipeline`) and the 1x1, skip and 3x3 convolutions (`Convolution`, `Conv1x1`, `ConvSkipInit`, `Conv3x3`,
  `Conv3x3Vector`, `Conv3x3Sections`, `PlainConvolution`). The vector forms walk pointers and shuffle vectors as the C++
  does, and leave what the scalar forms leave. `Indexing`, `Matrices` and `VectorUnit` hold the shared arithmetic and
  vector operations. `Options` holds the optional values used throughout.
- **DMA access patterns** (`AccessPatterns`, `DmaLowering`). Tiling patterns are permutations that produce the kernels'
  layouts; lowering an element-wise pattern to 32-bit words keeps the bytes exactly under a stated condition.
- **Encoders and allocators** (`Bits`, `NpuTransaction`, `NpuDecoding`, `ControlPackets`, `Airbin`, `AirbinImage`,
  `BdAssignment`, `FlowTracing`, `FlowRoutes`, `FlowQueues`). Transaction streams and control packets read back exactly
  under stated conditions, airbin sections are a lossless form of the recorded writes, mem-tile descriptors get distinct
  numbers in the right half, and flow tracing visits every node once.

Loops that update variables are methods with invariants, and the objects that change state (the channel table, the
router, the instruction vector, the airbin map) are classes. What a method computes is tied to a function or predicate
about which the lemmas then speak.

## What the proofs found

- A flow listed twice shifts the constraints of later flows (`RouteLimits.AlignedIff`); a feasible answer that is not
  optimal may break the single-predecessor assertion (`RouteLimits.FeasibleMayFork`, and `RouteWalk.TracedTreeIff` for
  the exact condition).
- The default mode gives the variable that counts overlaps on an edge the number of flows as its largest value, so four
  flows alone can never share an edge, however many channels it has (`RouteLimits.OverlapRangeIff`). On a square of
  four switchboxes the two modes rule out each other's answers (`RouteObjective.ModesDiffer`).
- A flow that ends on a grid bundle can push another flow off the hardware (`RouteLimits.EndpointOnGridOverflows`,
  `RouteIsolation.ChannelsFitIff`). A flow that starts on a grid bundle may find another flow's data arriving at its
  source port (`RouteLimits.SourcePortIsHit`, `RouteIsolation.SourcesIsolatedIff`), and a flow that ends on one sends
  its data on to whatever listens behind it, a fixed connection included (`RouteIsolation.FixedIncomingSetAside`). A
  fixed connection between two grid wires reserves only the outgoing one (`RouteLimits.FixedIncomingIsHit`,
  `RouteIsolation.FixedIncomingIff`).
- The static assertions of the matrix kernels admit sizes that make the kernels with blocks of four overrun their tiles
  (`MatmulLayouts.AssertedSizesSufficeIff`).
- The width assertion of the 1x1 convolution admits widths that are not multiples of 32, and the kernels then leave
  different outputs (`Conv1x1.WidthAssertionIff`, `Conv1x1.SameOutputsIff`). Its comment asks for 16 input channels
  where its assertion asks for more than two groups of eight; the kernel is right for any number.
- The last prefetch of the 3x3 convolution reads 32 elements behind each line (`Conv3x3Vector.PrefetchesFitIff`).
- The operation verifier accepts DMA patterns that are lowered to other bytes (`DmaLowering.AcceptedButMoved`).
- The transaction header counts block writes that emitted nothing, and symbolic masked writes leave zero words that are
  read as other records or as none (`NpuDecoding.StreamReadsBackIff`, `NpuDecoding.SymbolicMaskDesynchronises`,
  `NpuDecoding.SymbolicMasksGoUnnoticed`); a second translation into the same vector fills the first header
  (`NpuDecoding.HeaderRightIff`).
- The two forms of the skip convolution compute different values when the input halves together are not all channel
  groups and there are two output groups (`ConvSkipInit.SameResultsIff`), and the scalar 3x3 convolution reads before
  lines of one pixel (`Conv3x3.LinesNeedTwoPixelsIff`).
- Five beats or none change the meaning of a control packet header (`ControlPackets.FifthBeatIsOpcode`,
  `ControlPackets.EmptyPacketsLookAlike`).
- `clearRange` repeats the check of the start where it means the length (`AirbinImage.ClearsPastTheEnd`), and does not
  stop when the wrapped end lies in the last three bytes (`Airbin.RangeEndsIff`); `groupSections` returns a null
  section when nothing was written (`Airbin.MemWrites.GroupSections`).
- A mem-tile chain shared by an even and an odd channel is split across the halves (`BdAssignment.SharedChainIsSplit`).
- Flow tracing runs forever on a flow that returns to its source, and mixes up ports after a missing switchbox
  (`FlowQueues.EndsIff`, `FlowQueues.ReturningFlowRunsForever`, `FlowQueues.MissingSwitchboxMispairs`).

## Model

| member | source | states |
|---|---|---|
| SwitchGraph.BuildGraph | python/util.py:11-67 | For every grid size and target model: all switchboxes of the grid are nodes; for every tile the edge to the south exists if and only if the tile has southern destinations, with that many channels and bundle South, and the edge back if and only if it has southern sources, with bundle North; the same to the west with West and East; there are no other edges |
| SwitchGraph.WireHasTwoEnds | python/util.py:41-45 | Going out through a grid bundle and back through its connecting bundle is no move, so both ends of a wire name the same pair of switchboxes |
| SwitchGraph.BundleDeterminesEdge | python/util.py:420-447 | A switchbox and a bundle name at most one outgoing and one incoming edge: the one-match assertions cannot fail |
| FlowBalance.CutBalance | python/util.py:106-114 | For every set of switchboxes, what leaves the set minus what enters it is the excess of the source and target in it: node-wise balance adds up to balance across every cut |
| FlowBalance.EndpointsExact | python/util.py:98-114 | One unit out of the source and conservation elsewhere already force no edge into the source and exactly one into the target, whatever the neighbour-only sums leave out |
| FlowBalance.BalancedContainsPath | python/util.py:95-114 | On any finite graph, every balanced 0/1 assignment contains a simple path from source to target |
| FlowBalance.RouteIsUnforked | python/util.py:308-316 | If the used edges are exactly a simple path, every switchbox but the source has exactly one predecessor among them: the single-predecessor assertion holds |
| FlowBalance.PathDegrees | python/util.py:308-316 | Along a simple path every switchbox but the last has one edge out, every one but the first has one edge in, and no other switchbox has any |
| RouteConstraints.PostedFlowContainsPath | python/util.py:95-114 | Every assignment meeting the constraints posted for a flow contains a simple path whose edges alone also meet them |
| RouteConstraints.RouteIsPosted | python/util.py:95-114 | Conversely a simple path between different switchboxes meets the constraints when every wire into the target also runs back |
| RouteConstraints.SameSwitchboxInfeasible | python/util.py:98-104 | A flow that starts and ends on one switchbox has no solution at all |
| RouteConstraints.ShrinkKeepsFeasible | python/util.py:116-157 | Replacing the edges of one flow by a path among them keeps the balance of every flow, every capacity, and in the default mode the range of every overlap count |
| RouteConstraints.NoSmaller | python/util.py:116-164 | Of an optimal assignment no edge of any flow can be left out such that the constraints of that flow still hold |
| RouteObjective.DefaultObjective | python/util.py:116-163 | When every edge that is used is listed once, the objective of the default mode is the number of edges of all flows plus the number of edges every two flows share |
| RouteObjective.MinEdgesObjective | python/util.py:116-163 | In the other mode it is the number of edges of all flows plus the number of edges any flow uses |
| RouteObjective.ModesDiffer | python/util.py:159-164 | Two flows across a square of four switchboxes: sharing all edges is feasible and not optimal by default, going separate ways is feasible and not optimal when edges are minimised |
| RouteConstraints.ObjectiveShrinks | python/util.py:159-164 | Dropping edges never raises the objective, and strictly lowers it, in either mode |
| RouteConstraints.OptimalIsRoute | python/util.py:95-164 | In either mode every assignment that minimises the objective uses, for every flow, exactly the edges of one simple path between its endpoints |
| RouteConstraints.RouteDeterminesEnds | python/util.py:89-96 | The two ends of a route can be read off its set of edges |
| RouteConstraints.ReturnedPathIsRoute | python/util.py:89-96 | The edges an optimal answer returns for a flow are a route for it if and only if its endpoints are those of the flow whose constraints were put on its variables: variables belong to the distinct flows, constraints to the listed ones |
| RouteConstraints.DistinctFlowsAreTheirKeys | python/util.py:89-92 | Flows that are all different are exactly the keys of the dictionary, in order |
| RouteTrace.ChannelTable.NextAvailable | python/util.py:326-331 | The search ends; it returns the smallest channel not taken on the bundle, which is at most the number of channels taken, and takes exactly that one |
| RouteTrace.Pigeonhole | python/util.py:326-331 | A set that holds all numbers below i has at least i members: why the smallest free channel is small |
| RouteWalk.Predecessor | python/util.py:308-316 | The switchbox before another on a path is defined if and only if exactly one edge leads into it, and then it is the tail of that edge |
| RouteWalk.NeverComesBack | python/util.py:344-357 | On the edges of a posted flow the walk back over sole predecessors never meets a switchbox twice |
| RouteWalk.TracedToIff | python/util.py:339-357 | Tracing one more destination meets no failing assertion if and only if its edges hold an unforked route to it from the source or from a switchbox that was reached before; for every posted flow and every tree traced before |
| RouteWalk.TracedTreeIff | python/util.py:333-357 | No assertion fails for a source if and only if each of its destinations, in order, has an unforked route to it from the tree of those before it |
| RouteWalk.TreeInPaths | python/util.py:339-357 | Every hop of the tree of a source is an edge chosen for one of its destinations |
| RouteTrace.GetPred | python/util.py:308-316 | With exactly one edge into a switchbox, and only then, there is a predecessor: the tail of that edge, with the bundle it leaves by |
| RouteTrace.TraceHop | python/util.py:344-357 | One hop: the switchbox has had no incoming port before and now has one; the predecessor drives the same channel on the connecting bundle; the traced switchboxes still form a tree and the table still holds exactly the channels of the tree |
| RouteTrace.TraceBack | python/util.py:344-357 | On the edges of every posted flow, forked or not, the walk terminates; it meets a failing assertion exactly when the function of the edges says so, and otherwise leaves the tree this function gives, with settings, channel table and falling ranks in agreement |
| RouteTrace.TraceDestination | python/util.py:339-357 | Tracing one more destination, over a path that may disagree with the earlier ones, fails exactly when the function says so, and otherwise drives its port and leaves the tree the function gives |
| RouteTrace.BundleNotTaken | python/util.py:344-357 | A switchbox that is not yet in the tree has not cost its predecessor a channel: a tree takes at most one channel per edge |
| RouteSolution.TraceSource | python/util.py:334-360 | For one source the assertions hold if and only if the tree function of its destinations has a value; then the settings are those of this tree, rooted at the source and containing every destination, each switchbox gets its incoming port once, and the channels taken since are exactly those of the tree, each the smallest that was free |
| RouteSolution.DestinationsDelivered | python/util.py:333-360 | From every destination, following incoming ports reaches the source without meeting a switchbox twice, each hop matched by the same channel driven on the predecessor |
| RouteSolution.NoStrayPorts | python/util.py:339-357 | Every driven port is a destination or feeds a switchbox that listens to exactly that channel |
| RouteSolution.GroupFlows | python/util.py:318-324 | Grouping by source keeps every destination in order, and reserves exactly the destination ports on top of what was taken |
| RouteSolution.GetRoutingSolution | python/util.py:301-362 | There is a solution if and only if every source can be traced; it has exactly the sources as keys, and every source was routed from the channels the previous one left behind |
| RouteProperties.FlowsDelivered | python/util.py:333-362 | Every flow of a run is delivered by the settings of its source |
| RouteProperties.HopIsAllotted | python/util.py:326-357 | Every driven port that is not a destination is a grid wire whose channel was free before its source was traced and is taken afterwards |
| RouteProperties.HopsAvoidReserved | python/util.py:318-331 | No hop of any source uses the channel of a fixed connection or the port of any flow destination |
| RouteProperties.SourcesNeverShareWires | python/util.py:326-357 | Two different sources never drive the same port, unless both were asked to reach it as a destination |
| RouteProperties.ChannelsTakenSoFar | python/util.py:326-357 | Before each source, an edge has lost at most one channel for every flow of an earlier source through it |
| RouteProperties.HopChannelBound | python/util.py:326-331 | The channel of a hop is below what was taken at the start plus the number of flows on its edge |
| RouteGuarantees.ReservedKeepsBudget | python/util.py:426-448 | Setting a channel aside keeps remaining plus taken channels within the hardware on every edge, also when both ends of one wire are registered |
| RouterObject.Router.Initialize | python/util.py:401-405 | Builds the full grid and the budget every later call keeps |
| RouterObject.Router.AddFixedConnection | python/util.py:410-450 | Reports whether the connection lies on a grid wire, and then reserves exactly its channel on the outgoing wire, or on the incoming one if there is no outgoing wire; otherwise changes nothing |
| RouterObject.Router.FindPaths | python/util.py:452-465 | For every answer of the solver, optimal or feasible, there is a solution if and only if no assertion fails on its paths, which is a function of them; then every flow is delivered; no hop uses a destination port, a channel of a fixed connection or the port of another source; every hop is an edge of the hardware on a channel below its size plus the destination ports on it; and on every edge exactly the channels that are due, known from flows, fixed connections and paths, are handed out; a second call returns the same solution and changes nothing |
| RouteGuarantees.OptimalIsTraced | python/util.py:166-177 | On an optimal answer no assertion fails |
| RouteGuarantees.NoForksIsTraced | python/util.py:308-316 | Nor on any answer whose paths do not fork |
| ChannelUse.HandedInOrder | python/util.py:326-357 | When a channel of an edge has been handed out, every free one below it has been |
| ChannelUse.UsersAreKnown | python/util.py:333-357 | The sources that use an edge in a run are those whose tree, a function of the paths alone, has that edge |
| ChannelUse.HandedIff | python/util.py:318-357 | A channel of an edge is handed out to some source if and only if it was free at the start and fewer free ones lie below it than sources whose tree has the edge |
| ChannelUse.HopIff | python/util.py:344-357 | What a source drives on an edge on the way to its destinations is the one channel its tree takes there, and nothing else |
| RouteGuarantees.RunHandsOutDue | python/util.py:318-357 | For every run and every edge, some source is sent out on a channel if and only if it is due: free of fixed connections and destination ports, with fewer free ones below it than sources whose tree has the edge; all of it known before the run |
| RouteGuarantees.RunIsGuaranteed | python/util.py:301-362 | Every run within the remaining capacities delivers all flows, isolates, fits the hardware and hands out the due channels |
| RouteIsolation.DrivesIff | python/util.py:339-357 | A port is driven if and only if it is a destination or a channel handed out on the way to one |
| RouteIsolation.ArrivesIff | python/util.py:41-57 | Data of some flow arrives at a port behind a grid edge if and only if a destination port faces it there or its channel is due on that edge |
| RouteIsolation.SourcesIsolatedIff | python/util.py:318-357 | No data of any flow arrives at a source port if and only if, for each source port behind a grid edge, no destination port faces it and its channel is not due there; in particular when no source port lies behind a grid edge |
| RouteIsolation.InFixedTable | python/util.py:410-450 | A channel is set aside if and only if some fixed connection of the list sets it aside |
| RouteIsolation.FixedOutgoingIff | python/util.py:416-431 | Data is sent out through the port a fixed connection drives if and only if that port is the destination of some flow, whatever other connections there are |
| RouteIsolation.FixedIncomingIff | python/util.py:426-448 | Data of a flow arrives at the port a fixed connection listens to if and only if a destination port faces it, or no fixed connection sets that channel aside on the wire there and fewer free channels lie below it than sources whose tree has the edge |
| RouteIsolation.FixedIncomingSetAside | python/util.py:433-448 | When the outgoing side of a fixed connection is not a grid edge, data of a flow arrives at its incoming port if and only if a destination port faces it |
| RouteIsolation.ChannelsFitIff | python/util.py:318-331 | All channels handed out on an edge are below a size if and only if the sources whose tree has the edge are no more than the channels below that size that were free at the start |
| RouteGuarantees.OffGridHopsExist | python/util.py:452-465 | When no destination lies on a bundle with a grid edge, every channel handed out exists in the hardware, whatever fixed connections came before |
| RouteGuarantees.RunIsolates | python/util.py:318-357 | The isolation of a whole run, for any routed run over the given flows |
| RouteGuarantees.RunFitsHardware | python/util.py:326-331 | The hardware bound of a whole run, for any routed run whose flows respect the remaining capacities |
| RouteLimits.FeasibleMayFork | python/util.py:166-177 | In either mode an answer that is feasible but not optimal may contain an idle loop that gives a switchbox of the path two predecessors, and an assertion fails |
| RouteLimits.OverlapRangeIff | python/util.py:119-157 | For every assignment and edge, the posted range of the variable that counts overlaps allows d flows on the edge if and only if d (d - 1) is at most twice the number of all flows, whatever the capacity |
| RouteLimits.DefaultFeasibleIff | python/util.py:119-157 | An answer is feasible by default if and only if it is when edges are minimised and no edge has too many flows for this range |
| RouteLimits.SharedEdgeIff | python/util.py:119-157 | In particular at most three flows can share an edge when they are all the flows |
| RouteLimits.RepeatedFlowMisaligns | python/util.py:89-95 | A flow listed twice shifts the next new flow onto the constraints of an earlier one |
| RouteLimits.AlignedIff | python/util.py:89-95 | Every variable set carries the constraints of its own flow if and only if no new flow follows a repetition, for any list of flows |
| RouteLimits.EndpointOnGridOverflows | python/util.py:320-331 | A destination port on a grid bundle uses up a channel the capacity does not know of: on a feasible answer the other flow is sent out on channel 1 of an edge with one channel |
| RouteLimits.SourcePortIsHit | python/util.py:344-357 | On a feasible answer for two flows between two switchboxes, one of which starts at a port on the grid, data of the other arrives there |
| RouteLimits.FixedIncomingIsHit | python/util.py:416-431 | Beside one fixed connection between two grid ports, data of a flow with a feasible answer arrives at the port the connection listens to |
| CascadeKernels.RunningSum | aie_kernels/aie2/cascade_mm.cc:32-35 | The inner loop computes the wrapped dot product of a row and a column |
| CascadeKernels.PutOnly | aie_kernels/aie2/cascade_mm.cc:27-42 | Emits one item per output, in row-major order, each the wrapped product of its own slices |
| CascadeKernels.PutGet | aie_kernels/aie2/cascade_mm.cc:61-77 | Relays exactly one item for each item received: its own product plus the item, wrapped |
| CascadeKernels.GetOnly | aie_kernels/aie2/cascade_mm.cc:44-59 | Adds its own product and the received item to each element of C, in order, and touches nothing else |
| CascadePipeline.PutKeepsInv | aie_kernels/aie2/cascade_mm.cc:27-77 | A put by any core keeps the pipeline invariant: each FIFO holds consecutive partial sums, none is over capacity, and core counts differ by what is in flight |
| CascadePipeline.GetKeepsInv | aie_kernels/aie2/cascade_mm.cc:27-77 | A get by any core keeps the pipeline invariant |
| CascadePipeline.StuckIsFinished | aie_kernels/aie2/cascade_mm.cc:27-77 | No reachable state is a deadlock, for any number of cores and any FIFO capacities of at least one: where nothing can move, everything is done |
| CascadePipeline.StepWorks | aie_kernels/aie2/cascade_mm.cc:27-77 | Every step uses up exactly one get or put, so every interleaving terminates |
| CascadePipeline.EveryRunCompletes | aie_kernels/aie2/cascade_mm.cc:27-77 | Every interleaving is finite with the same bound, gets stuck only when finished, and then C is the initial C plus the sum of all the products, wrapped once |
| CascadePipeline.FinishedResult | aie_kernels/aie2/cascade_mm.cc:27-77 | In a finished state each element of C is the wrapped sum of its initial value and the products of all cores |
| CascadePipeline.PartialIsSum | aie_kernels/aie2/cascade_mm.cc:27-77 | The n-th item behind core p is, up to wrap-around, the sum of the products of cores 0 to p for output n |
| CascadePipeline.KernelStreams | aie_kernels/aie2/cascade_mm.cc:27-77 | Run one after the other with whole streams, the kernels produce the same streams as any interleaving |
| CascadePipeline.KernelsGiveProduct | aie_kernels/aie2/cascade_mm.cc:27-77 | The last of them then leaves in C the initial C plus the sum of all the products, wrapped once |
| MatmulKernels.Matmul | aie_kernels/aie2/mm.cc:42-134 | For every layout with disjoint tiles and counts that the unroll factors divide, each C tile ends as its old value accumulated with its row of A tiles times its column of B tiles, is loaded once and stored once; everything outside the tiles is unchanged |
| MatmulKernels.MultiplyBlock | aie_kernels/aie2/mm.cc:66-118 | After the first step and the loop, the accumulators of a block hold the multiply-accumulates of all K tiles, with all pointers advanced in step |
| MatmulKernels.StoreBlock | aie_kernels/aie2/mm.cc:119-129 | Storing a block finishes exactly its tiles |
| MatmulLayouts.TileDot | aie_kernels/aie2/mm.cc:105-118 | One multiply-accumulate of tiles contributes the next s terms of the element-wise dot product |
| MatmulLayouts.AccumulatedElement | aie_kernels/aie2/mm.cc:66-118 | After n steps each element of an accumulator has gained the first n*s terms of its dot product |
| MatmulLayouts.MultipliedElement | aie_kernels/aie2/mm.cc:42-134 | Every element of C gains the full dot product of its row of A and column of B, in any layout |
| MatmulLayouts.MatmulVectorized | aie_kernels/aie2/mm.cc:42-134 | The 2x2-tile form adds A times B to C for even tile counts |
| MatmulLayouts.MatmulVectorized1x2 | aie_kernels/aie2/mm.cc:136-261 | The 4x2-tile form adds A times B to C when its unroll factors divide the tile counts |
| MatmulLayouts.MatmulVectorized2x2 | aie_kernels/aie2/mm.cc:263-479 | The 4x4-tile form adds A times B to C when four divides the tile counts |
| MatmulLayouts.MatmulStripes | aie_kernels/mm.cc:48-253 | The vertical-stripe kernel with offsets adds A times B to C in its own layout |
| MatmulLayouts.StripeFormula | aie_kernels/mm.cc:27-46 | The documented address of an element in vertical stripes is the address the kernel reads it at, for all sizes |
| MatmulLayouts.MatmulColumnMajorB | aie_kernels/aie2/mm_b_col_maj.cc:31-115 | The kernel that transposes tiles of a column-major B adds A times B to C |
| MatmulLayouts.StaysInsideIff | aie_kernels/aie2/mm.cc:148-149 | A loop in steps of the block height stays inside the tile rows if and only if the block height divides them |
| MatmulLayouts.AssertedSizesSufficeIff | aie_kernels/aie2/mm.cc:481-513 | For all asserted sizes the 2x2-tile kernel stays inside C; the 4x2-tile kernel does if and only if four divides the tile rows, and the 4x4-tile kernel if and only if four divides tile rows and tile columns |
| MatmulLayouts.StaticAssertsGiveTwoNotFour | aie_kernels/aie2/mm.cc:481-513 | Asserted sizes that make the kernels with blocks of four run over, in the rows or only in the columns |
| MatmulEndToEnd.MatmulScalar | aie_kernels/aie2/mm.cc:27-40 | The scalar kernel adds to each element of C the element of the product |
| Matrices.UnitMovesColumn | aie_kernels/aie2/mm.cc:27-40 | Times a matrix whose only one is at (p, q), column p of A becomes column q of the product: A is read row by row, B row by row, and C is left row by row |
| MatmulEndToEnd.KernelAddsProduct | aie_kernels/aie2/mm.cc:42-134 | Whatever layout and unrolling, each element of C gains the same element of the product as with the scalar kernel |
| MatmulEndToEnd.GatheredHolds | python/util.py:471-483 | Gathering row-major A and B with the tiling patterns gives exactly the layout the kernel expects |
| MatmulEndToEnd.EndToEnd | python/util.py:471-483 | Gather, multiply with any of the row-major-tile kernels, scatter: the result equals what the scalar kernel leaves on the row-major matrices |
| MatmulEndToEnd.SlicesAddUp | aie_kernels/aie2/mm.cc:27-40 | Kernel calls over successive slices of the K dimension, each on the C buffer the one before it left, in any layout and number: each element of C gains its dot product over all the slices |
| MatmulEndToEnd.SlicesGiveProduct | aie_kernels/aie2/mm.cc:27-40 | When the slices make up all of K, each element of C has gained its element of the product |
| AccessPatterns.TiledAt | python/util.py:476-481 | The pattern reads, at each tile-major position, the row-major element of that tile, row and column |
| AccessPatterns.EveryElementVisited | python/util.py:471-483 | When tiles divide the matrix every element is visited at its tile-major position |
| AccessPatterns.EveryPositionIsOne | python/util.py:471-483 | And every position visits exactly the element it is the position of: the pattern is a permutation |
| AccessPatterns.TileSizesCoverIff | python/util.py:471-483 | The pattern for given tile sizes covers the matrix if and only if they divide it; otherwise it is shorter |
| AccessPatterns.NTilesIsTileSizes | python/util.py:486-498 | Asking for a number of tiles and asking for the resulting tile size give the same pattern when the tiles divide the matrix |
| MatVec.MatvecVectorized | aie_kernels/aie2/mv.cc:40-133 | Every output gains its row of the word-transposed matrix times b, and the walking pointer ends exactly at m*k |
| MatVec.EightColumns | aie_kernels/aie2/mv.cc:57-127 | One pass adds eight more terms to every row, and leaves the pointer two columns of words further on |
| MatVec.MatvecScalar | aie_kernels/aie2/mv.cc:27-38 | Every output gains its row of the row-major matrix times b |
| MatVec.RowDotIsDot | aie_kernels/aie2/mv.cc:27-133 | The vector and the scalar kernel leave the same output when one matrix is the word transposition of the other |
| MatVec.WordTransposition | aie_kernels/aie2/mv.cc:40-56 | The word-transposed order is the access pattern over word columns, then rows, then the halves of a word |
| Convolution.ShiftsAgree | aie_kernels/aie2/conv2dk1.cc:99-101 | Adding half and shifting out the fraction, as the scalar kernels do, is rounding to the nearest integer with ties up, as the vector unit is set to do, for every sum and every shift of at least one |
| Convolution.ShiftIsNearest | aie_kernels/aie2/conv2dk1.cc:258-261 | The rounded value is never more than half a unit away from the exact quotient, and a tie goes up |
| Convolution.MacElement | aie_kernels/aie2/conv2dk1.cc:292-296 | A 4x8x8 multiply-accumulate adds, to each of its 32 sums, the eight channels of one pixel times the weights of one output channel |
| Convolution.AccumulateGroups | aie_kernels/aie2/conv2dk1.cc:287-298 | The loop over input groups with its walking pointers adds to each of eight accumulators the sums over all channels of its pixels, and leaves both pointers exactly where the resets expect them |
| Convolution.GroupsBound | aie_kernels/aie2/conv2dk1.cc:90-97 | Any number of channel groups stays within 261120 a group in absolute value |
| Conv1x1.Conv2dk1Scalar | aie_kernels/aie2/conv2dk1.cc:76-109 | Every output value is the rounded, saturated sum over all input channels, at its place in the blocked layout; everything else is unchanged |
| Conv1x1.Conv2dk1Vector | aie_kernels/aie2/conv2dk1.cc:251-318 | For every width, the vector kernel writes the same values for whole blocks of 32 pixels, contiguously, and nothing else |
| PlainConvolution.Conv1x1IsPlain | aie_kernels/aie2/conv2dk1.cc:76-109 | The sum behind each output is that of the values of the pixel over all input channels, in blocks of eight channels, times the weights for them, in blocks of eight by eight with output channels innermost |
| Conv1x1.KernelsAgree | aie_kernels/aie2/conv2dk1.cc:76-318 | On widths that are multiples of 32 both kernels leave the same output, for any channel counts |
| Conv1x1.WidthAssertionIff | aie_kernels/aie2/conv2dk1.cc:274-279 | The asserted condition on the width also admits rows up to three pixels longer than whole blocks |
| Conv1x1.SameOutputsIff | aie_kernels/aie2/conv2dk1.cc:76-318 | From every old output both kernels leave the same if and only if the width is a multiple of 32 or there is no output group; otherwise the last value written by the scalar kernel is left alone by the vector kernel |
| Conv1x1.AssertedWidthDiffers | aie_kernels/aie2/conv2dk1.cc:274-279 | Rows of 33 pixels pass the assertion, and the kernels leave different outputs |
| Conv1x1.AccumulatorFits | aie_kernels/aie2/conv2dk1.cc:267-298 | Every partial sum fits 32 bits for up to 65792 input channels |
| ConvSkipInit.SkipInitScalar | aie_kernels/aie2/conv2dk1_skip_init.cc:40-141 | Every output is the sum over both input halves and the convolved skip, each rounded and saturated to int8, added, rounded and saturated to uint8 |
| ConvSkipInit.SkipWeightsFollow | aie_kernels/aie2/conv2dk1_skip_init.cc:40-141 | When the weights are those of the convolution, as many as input times output channels, followed by those of the skip, the sums over the skip read the latter from their start and the sums over the inputs read the former alone, in either kernel |
| PlainConvolution.ConvSumIsPlain | aie_kernels/aie2/conv2dk1_skip_init.cc:40-141 | Each sum over the inputs is that of the channels of the first input and behind them those of the second, times the weights for them |
| PlainConvolution.SkipSumIsPlain | aie_kernels/aie2/conv2dk1_skip_init.cc:40-141 | Each sum over the skip is that of all its channels times the weights behind those of the convolution |
| ConvSkipInit.SkipInitVector | aie_kernels/aie2/conv2dk1_skip_init.cc:264-433 | The vector kernel with three running offsets and two weight pointers leaves the same values for whole blocks of 32 pixels, for any width; for channel counts whose halves are not all groups, with the weights of each output group as far apart as it walks |
| ConvSkipInit.VectorBlock | aie_kernels/aie2/conv2dk1_skip_init.cc:306-421 | One block: three accumulations, two of them on the same sums, and all six offsets and pointers end where the next block starts |
| ConvSkipInit.SameResultsIff | aie_kernels/aie2/conv2dk1_skip_init.cc:264-433 | Both kernels compute the same values for all inputs, weights and scales if and only if rows are empty, there is one output group at most, there are fewer than 16 input channels, or both halves together are all channel groups |
| ConvSkipInit.KernelsAgree | aie_kernels/aie2/conv2dk1_skip_init.cc:40-433 | On widths that are multiples of 32 both kernels then leave the same output |
| ConvSkipInit.AccumulatorsFit | aie_kernels/aie2/conv2dk1_skip_init.cc:311-397 | Both accumulators stay within 32 bits at every step for up to 65792 channels each |
| Conv3x3.ByChannelIsNine | aie_kernels/aie2/conv2dk3.cc:330-367 | Summing channel by channel over the columns of the kernel, as the scalar loops do, equals summing position by position over all channels, as the vector kernel does |
| Conv3x3.BorderColumns | aie_kernels/aie2/conv2dk3.cc:232-326 | Leaving out the first kernel column at the left end and the last at the right end is zero padding |
| Conv3x3.ScalarPixel | aie_kernels/aie2/conv2dk3.cc:328-370 | Each output value is the rounded, saturated sum over all kernel positions and channels, with zeros outside the line and the missing line left out at the top or bottom |
| PlainConvolution.Conv3x3IsPlain | aie_kernels/aie2/conv2dk3.cc:211-377 | Each value is the rounded, saturated sum over all input channels and the nine positions of the kernel: zeros beside the line, no terms from the line that is not there at the upper or lower border, and the weights of the output channel behind the channel offset |
| Conv3x3.Conv2dk3Scalar | aie_kernels/aie2/conv2dk3.cc:211-377 | The scalar kernel leaves, for every width of at least two, every region and every channel offset, the full convolution in the blocked layout |
| Conv3x3.LinesNeedTwoPixelsIff | aie_kernels/aie2/conv2dk3.cc:280-309 | The right end of every line is read inside the line if and only if it has at least two pixels |
| Conv3x3.AccumulatorFits | aie_kernels/aie2/conv2dk3.cc:1010-1023 | No partial sum of the vector kernel leaves 32 bits for up to 913 groups of input channels |
| Conv3x3Vector.MacAddsTap | aie_kernels/aie2/conv2dk3.cc:1010-1023 | Multiplying a vector that holds the right window of pixels by the weights of a kernel position adds exactly that position to all 32 sums |
| Conv3x3Vector.LeftWindow | aie_kernels/aie2/conv2dk3.cc:984-1000 | The left section works on the first seven pixels behind one zero pixel |
| Conv3x3Vector.RightWindow | aie_kernels/aie2/conv2dk3.cc:1311-1329 | The right section works on the last five pixels followed by three zero pixels |
| Conv3x3Vector.FirstWindow | aie_kernels/aie2/conv2dk3.cc:1201-1226 | The middle section starts each kernel column with the window shifted by that column, whatever the shuffle leaves in the undefined lanes |
| Conv3x3Vector.WindowMoves | aie_kernels/aie2/conv2dk3.cc:1248-1251 | For each of the three kernel columns the shift, insert, shift sequence moves the window on by four pixels |
| Conv3x3Vector.MiddleTap | aie_kernels/aie2/conv2dk3.cc:1199-1256 | One kernel position is added to all six middle accumulators and the line pointer returns to where it was; the last prefetch is dead |
| Conv3x3Vector.PrefetchesFitIff | aie_kernels/aie2/conv2dk3.cc:1213-1251 | The loads of the middle section stay inside their line buffers if and only if at least 32 elements follow the pixels |
| Conv3x3Sections.LeftOutput | aie_kernels/aie2/conv2dk3.cc:976-1053 | One output group of the left section: first four pixels finished, all pointers of the used rows at the start of the next group |
| Conv3x3Sections.MiddleOutput | aie_kernels/aie2/conv2dk3.cc:1193-1279 | One output group of the middle section: pixels 4 to 27 finished, all pointers back |
| Conv3x3Sections.RightOutput | aie_kernels/aie2/conv2dk3.cc:1303-1362 | One output group of the right section: pixels 28 to 31 finished, all pointers back |
| Conv3x3Sections.NextSection | aie_kernels/aie2/conv2dk3.cc:1056-1067 | Between sections the output, line and weight pointers are reset to the next section start |
| Conv3x3Sections.Conv2dk3Vector | aie_kernels/aie2/conv2dk3.cc:847-1363 | For lines of 32 pixels, any region, any channel counts and any channel offset, the three sections together leave the full convolution, each output written once |
| Conv3x3Sections.KernelsAgree | aie_kernels/aie2/conv2dk3.cc:847-1363 | Scalar and vector kernel leave the same output, whatever lies in the spare elements behind the lines |
| DmaLowering.SetMultiDimAddr | lib/Targets/AIETargetShared.cpp:86-133 | The emitted list is the lowered dimensions in reverse order; a misaligned base is refused |
| DmaLowering.LoweredFits | lib/Targets/AIETargetShared.cpp:105-125 | Dimensions whose sizes have 16 and whose strides 32 bits are lowered to such, with strides of at least one |
| DmaLowering.SameBytesIff | lib/Targets/AIETargetShared.cpp:105-125 | The lowered word-level list touches the same bytes in the same order if and only if every dimension is word-sized (whole-word outer strides, contiguous or word-wide innermost elements, stride 0 only with size 1) or nothing is touched |
| DmaLowering.InnerSameIff | lib/Targets/AIETargetShared.cpp:116-120 | The innermost dimension keeps its bytes exactly under its own condition |
| DmaLowering.NarrowIff | lib/Targets/AIETargetShared.cpp:116-120 | Elements narrower than a word keep their bytes if and only if they are contiguous |
| DmaLowering.WideIff | lib/Targets/AIETargetShared.cpp:116-120 | Elements wider than a word keep their bytes if and only if they are contiguous or there is a single one with stride 0 |
| DmaLowering.AcceptedSameBytesIff | lib/Dialect/AIE/IR/AIEDialect.cpp:1834-1875 | For dimensions the operation verifier accepts, whole words are exactly what is missing |
| DmaLowering.AcceptedButMoved | lib/Dialect/AIE/IR/AIEDialect.cpp:1834-1875 | An accepted pattern that is lowered to different bytes: two rows of two 16-bit elements, three elements apart |
| NpuTransaction.Instructions.ReserveAndGetTail | lib/Targets/AIETargetNPU.cpp:43-50 | Extends the vector by zeroed words and keeps what was there |
| NpuTransaction.Instructions.Append | lib/Targets/AIETargetNPU.cpp:215-235 | Each operation extends the vector by exactly its encoding, and is counted unless it has none |
| NpuTransaction.Instructions.AppendBlockWrite | lib/Targets/AIETargetNPU.cpp:133-184 | Appends the header and all data words, or nothing when the data cannot be found |
| NpuTransaction.Instructions.Translate | lib/Targets/AIETargetNPU.cpp:188-243 | The vector ends as the header, the encodings of the selected sequences in order, and the count and size at the fixed positions 2 and 3 |
| NpuDecoding.FieldsDecode | lib/Targets/AIETargetNPU.cpp:61-67 | The byte-sized fields of a sync can be read back from the or-ed words |
| NpuDecoding.OriginReadsBack | lib/Targets/AIETargetNPU.cpp:197-208 | The first two words of every stream say version 1.0 of generation 3, and give rows, columns and mem tile rows of the device, cut down to a byte each, from the low byte of their word up: version, generation and rows in the first word, columns and mem tile rows in the second |
| NpuDecoding.SparesAreZero | lib/Targets/AIETargetNPU.cpp:52-131 | The bytes of a sync without a field and the last word of an address patch are zero |
| NpuDecoding.OneDecodes | lib/Targets/AIETargetNPU.cpp:52-184 | Every operation with an address is recognised by its opcode and size, whatever words follow it |
| NpuDecoding.ZerosMislead | lib/Targets/AIETargetNPU.cpp:76-100 | An operation left as zero words is read as a write of 0 to 0, and that is not what it means |
| NpuDecoding.DecodeJoins | lib/Targets/AIETargetNPU.cpp:214-236 | Behind a stream that can be read, another can be read if and only if it can by itself, and the records follow each other |
| NpuDecoding.BodyReadsBackIff | lib/Targets/AIETargetNPU.cpp:214-236 | For every list of operations whose blocks fit, the words read back as what the operations mean if and only if no masked write is symbolic and every symbolic write writes 0 to 0 |
| NpuDecoding.StreamReadsBackIff | lib/Targets/AIETargetNPU.cpp:188-243 | A reader that checks count and size gets what the operations mean if and only if, besides, no block write lacks its data; for every list that fits the size fields |
| NpuDecoding.CountIncludesVanished | lib/Targets/AIETargetNPU.cpp:224-227 | The count in the header is the number of records plus the number of block writes whose data was not found |
| NpuDecoding.RoundTrip | lib/Targets/AIETargetNPU.cpp:188-243 | Every list of operations with addresses and data is recovered from its stream |
| NpuDecoding.UniquelyDecodable | lib/Targets/AIETargetNPU.cpp:188-243 | Two such lists with the same stream mean the same records |
| NpuDecoding.StreamRuns | lib/Targets/AIETargetNPU.cpp:188-243 | Replaying the decoded stream of such a list on any register map leaves what running the operations in order leaves |
| NpuDecoding.MaskedBits | lib/Targets/AIETargetNPU.cpp:103-131 | In that replay a masked write replaces the bits under its mask and keeps the others |
| NpuDecoding.BlockIsStored | lib/Targets/AIETargetNPU.cpp:133-184 | In that replay a block write fills consecutive words from its address on, and nothing else |
| NpuDecoding.SymbolicMaskDesynchronises | lib/Targets/AIETargetNPU.cpp:92-100 | One masked write to a symbolic address before any plain write leaves words no reader can divide into records |
| NpuDecoding.SymbolicMasksGoUnnoticed | lib/Targets/AIETargetNPU.cpp:92-100 | Three of them and a block write without data are accepted by a reader that checks count and size, as four writes of 0 to 0 |
| NpuDecoding.HeaderRightIff | lib/Targets/AIETargetNPU.cpp:197-241 | The header of a translation holds its own count and size if and only if the vector was empty before |
| NpuDecoding.TileAddressFields | lib/Targets/AIETargetNPU.cpp:84-88 | On the NPU, column, row and offset can be read back from an address while the row has five and the column seven bits |
| NpuDecoding.RowsBeyondFiveBitsCollide | lib/Targets/AIETargetNPU.cpp:84-88 | Row 32 of column 0 and row 0 of column 1 get the same addresses |
| ControlPackets.EvenParity | lib/Targets/AIETargetNPU.cpp:275-282 | The loop decides whether the number of set bit positions is even |
| ControlPackets.AppendControlPacket | lib/Targets/AIETargetNPU.cpp:267-293 | Appends exactly the header and the data words, or zero words for opcodes without data; it is undefined exactly where missing data would be read |
| ControlPackets.TranslateControlPackets | lib/Targets/AIETargetNPU.cpp:257-296 | All packets of the selected sequences are appended in order |
| ControlPackets.BitCountIsNumberOfSetBits | lib/Targets/AIETargetNPU.cpp:275-282 | Adding up shifted-out bits counts the positions whose bit is set |
| ControlPackets.ProtectedIsOddIff | lib/Targets/AIETargetNPU.cpp:287-288 | The header has an odd number of set bits if and only if its top bit was free or it was odd already |
| ControlPackets.OneFlippedBitIsNoticed | lib/Targets/AIETargetNPU.cpp:275-288 | Flipping any single bit of a protected word makes its parity even |
| ControlPackets.PacketReadBackIff | lib/Targets/AIETargetNPU.cpp:283-292 | A packet is read back from its words, whatever follows, if and only if its stream id is below 128, its opcode below 4, it has 1 to 4 beats, and data is present exactly for opcodes 0 and 2 |
| ControlPackets.PacketsRoundTrip | lib/Targets/AIETargetNPU.cpp:257-296 | Every list of well-formed packets is read back from the concatenated words |
| ControlPackets.FifthBeatIsOpcode | lib/Targets/AIETargetNPU.cpp:283-287 | Five beats spill into the opcode: a write of five words has the header of a read of one |
| ControlPackets.EmptyPacketsLookAlike | lib/Targets/AIETargetNPU.cpp:283-287 | Without data or length the beats wrap around and the header no longer depends on opcode and stream |
| Airbin.AddressIsSum | lib/Targets/AIETargetAirbin.cpp:322-326 | The fields of an address do not overlap: or-ing them adds them, and the address fits 64 bits |
| Airbin.LocationIsUnique | lib/Targets/AIETargetAirbin.cpp:322-326 | No two places of the array share a location: tile and offset can be read back |
| Airbin.MemWrites.Write32 | lib/Targets/AIETargetAirbin.cpp:400-409 | Adds or replaces exactly the value at the address; column 0 is refused and changes nothing |
| Airbin.RangeEndsIff | lib/Targets/AIETargetAirbin.cpp:427-442 | From an aligned start, the condition of the loop fails at some time if and only if the wrapped end does not lie behind the start in the last three bytes of the 32-bit range |
| Airbin.MemWrites.ClearRange | lib/Targets/AIETargetAirbin.cpp:427-442 | Records zero for exactly the words of the range, or refuses an unaligned start or column 0; the length is not checked |
| Airbin.MemWrites.Execute | lib/Targets/AIETargetAirbin.cpp:400-442 | A list of writes and clears, carried out up to the first fatal one, leaves on any map the record of exactly the writes of the commands before it |
| Airbin.MemWrites.GroupSections | lib/Targets/AIETargetAirbin.cpp:1122-1141 | The sections are non-empty, as long as possible, in ascending order, and together exactly the map of writes; without any write the only section is a null pointer |
| AirbinImage.LastWriterWins | lib/Targets/AIETargetAirbin.cpp:406-408 | The map holds the value of the last write to each address |
| AirbinImage.BytesMakeWord | lib/Targets/AIETargetAirbin.cpp:294-299 | The four bytes stored for a word are bytes and make up the word, the low one first |
| AirbinImage.RecordedIff | lib/Targets/AIETargetAirbin.cpp:400-409 | The map holds an address if and only if some write went there |
| AirbinImage.ClearedIff | lib/Targets/AIETargetAirbin.cpp:440-441 | Clearing reaches the words of the range in its own tile, offsets cut down to eighteen bits, and nothing else, and leaves zeros there |
| AirbinImage.ClearsPastTheEnd | lib/Targets/AIETargetAirbin.cpp:432-441 | A length that is not a multiple of four is accepted, and clears the whole last word |
| AirbinImage.SectionsAreUnique | lib/Targets/AIETargetAirbin.cpp:1122-1141 | There is exactly one way to group a map of writes into such sections |
| AirbinImage.SectionsAreApart | lib/Targets/AIETargetAirbin.cpp:1122-1141 | Sections do not overlap, and between sections of aligned words there is a gap |
| AirbinImage.StoresOverlay | lib/Targets/AIETargetAirbin.cpp:294-299 | Storing words that do not overlap leaves, byte for byte, what the map of last writes says |
| AirbinImage.LoadsInAnyOrder | lib/Targets/AIETargetAirbin.cpp:294-299 | Loading the sections in any order leaves the memory the writes leave in program order, if no two words overlap |
| AirbinImage.ImageIsFaithful | lib/Targets/AIETargetAirbin.cpp:294-299 | For every sequence of aligned writes and clears, loading the sections in any order gives the memory of program order |
| AirbinImage.BuildImage | lib/Targets/AIETargetAirbin.cpp:1122-1141 | The sections grouped after carrying out any accepted commands are those of their writes, and for aligned commands loading them in any order, on any memory, gives the memory of program order |
| AirbinImage.OverlapsLoseTheOrder | lib/Targets/AIETargetAirbin.cpp:294-299 | For every pair of overlapping words there is a program whose sections give another memory |
| BdAssignment.MapChannels | lib/Targets/AIETargetXAIEV2.cpp:474-488 | The walk ends on every body, cyclic chains included; it maps exactly the blocks some start reaches, each to the channel of its owner: the last start that begins there, or else the first that reaches it |
| BdAssignment.WalkChain | lib/Targets/AIETargetXAIEV2.cpp:476-486 | One start: it terminates because every further step maps a new block, and leaves the map closed under first successors |
| BdAssignment.OwnerIsUnique | lib/Targets/AIETargetXAIEV2.cpp:476-486 | A block has at most one owner |
| BdAssignment.AssignBds | lib/Targets/AIETargetXAIEV2.cpp:467-501 | Mapping and then numbering gives a result if and only if some start reaches every block with a descriptor, and then a number for exactly these blocks, each in the half of a channel that reaches it when at most 24 descriptors are even |
| BdAssignment.NumberBds | lib/Targets/AIETargetXAIEV2.cpp:491-501 | Every block with a descriptor, and no other, gets the next number of the half its channel belongs to |
| BdAssignment.NumberIsRank | lib/Targets/AIETargetXAIEV2.cpp:491-501 | The number of a block is how many blocks with descriptors before it share the parity of its channel, counted from 0 for even channels and from 24 for odd ones |
| BdAssignment.DistinctIff | lib/Targets/AIETargetXAIEV2.cpp:491-501 | Numbers are distinct if and only if at most 24 descriptors are even or none is odd |
| BdAssignment.HalfIsParity | lib/Targets/AIETargetXAIEV2.cpp:497-500 | With at most 24 even descriptors the half of each number is the parity of its channel, and with at most 24 odd ones every number is below 48 |
| BdAssignment.HalvesMatchIff | lib/Targets/AIETargetXAIEV2.cpp:471-501 | Every channel finds all its descriptors in its own half if and only if no descriptor is reached by both an even and an odd channel |
| BdAssignment.SharedChainIsSplit | lib/Targets/AIETargetXAIEV2.cpp:480-486 | An odd channel starting inside the chain of an even one takes over only the block it starts at: the chain is split across the halves |
| FlowTracing.ChildIsInjective | lib/Targets/AIEFlowsToJSON.cpp:34-47 | The switchbox and port a wire comes from can be read off its other end |
| FlowTracing.OneParent | lib/Targets/AIEFlowsToJSON.cpp:218-225 | When no port is driven twice, a switchbox is entered through a port from one place only |
| FlowTracing.VisitsEachOnce | lib/Targets/AIEFlowsToJSON.cpp:206-269 | Once no node is pending, every switchbox and port the flow leads to has been visited exactly once, and no other |
| FlowTracing.PendingEndsIff | lib/Targets/AIEFlowsToJSON.cpp:206-269 | Nodes run out if and only if the flow does not come back to where it starts |
| FlowQueues.QueuesInStepIff | lib/Targets/AIEFlowsToJSON.cpp:218-236 | Along the whole run the queue of ports and the queue of switchboxes are equally long if and only if every switchbox the flow enters exists |
| FlowQueues.EndsIff | lib/Targets/AIEFlowsToJSON.cpp:206-269 | When these switchboxes exist and no port is driven twice, the loop over both queues ends if and only if the flow does not come back to where it starts |
| FlowQueues.ReturningFlowRunsForever | lib/Targets/AIEFlowsToJSON.cpp:206-269 | Two switchboxes that send data back and forth: every port is driven once, every switchbox exists, and the loop never ends |
| FlowQueues.MissingSwitchboxMispairs | lib/Targets/AIEFlowsToJSON.cpp:228-262 | With one switchbox missing, its port is paired with another switchbox, and the loop ends after two iterations although the flow goes on |
| FlowRoutes.HopsAreListed | lib/Targets/AIEFlowsToJSON.cpp:240-257 | Hop by hop the output lists exactly the visited nodes some connection leaves, in order; the directions of a hop are, in order, the destination bundles of exactly the connections from the incoming port |
| FlowRoutes.SeenIsChildren | lib/Targets/AIEFlowsToJSON.cpp:206-269 | What has been found is the start followed by where each visited node leads to, in the order of the visits: the trace is breadth first |
| FlowRoutes.RouteLeadsOnward | lib/Targets/AIEFlowsToJSON.cpp:206-257 | Every listed direction that does not leave the array or end in a core or DMA points to a visited switchbox |
| FlowRoutes.RouteLeadsBack | lib/Targets/AIEFlowsToJSON.cpp:206-257 | Every visited node but the first lies in a listed direction of an earlier hop, behind a wire that is connected to the incoming port there |
| FlowQueues.TraceFlow | lib/Targets/AIEFlowsToJSON.cpp:206-269 | On a flow without return whose switchboxes exist, the loop terminates, every node the flow leads to is visited exactly once, breadth first, and the output has all of these properties |

## Left out

- The CP-SAT and Gurobi solvers: a solution is any assignment that meets the posted constraints, and an optimal one where the property needs it; `route_using_ilp` and its own constraints are not modelled.
- In min-edges mode with no flows at all the source takes the maximum of an empty list; the model then posts the empty problem.
- Posting order, seeds, worker counts and timeouts of the solver.
- Path lists as sets of edges and switch settings as maps: the order of entries inside `dict(...)` results is not modelled.
- RouterObject.Router.FindPaths: asks that no new flow follows a repetition (RouteLimits.AlignedIff); nothing is promised of the object after a failed assertion, where the source raises an exception; RouteIsolation says when source ports and the ports of fixed connections are kept apart.
- RouterObject.Router.Initialize: is called once, before any connection is fixed; calling it again would keep the old channels.
- Floating point: bfloat16, float and accfloat kernels are modelled over exact integers, and so is every accumulator except in the cascade, where wrap-around is explicit; AccumulatorFits and its like say how many channels stay within 32 bits in the convolutions.
- The unrolled bodies of the matrix-multiplication kernels: one loop nest with the unroll factors as parameters stands for the hand-unrolled copies; the order of loads inside one step is not modelled.
- Pipelining pragmas, events, lock handling and the wrappers that select a kernel.
- Rounding and saturation modes are the two functions ShiftRound and Clamp; other modes of the vector unit are not modelled.
- Conv3x3Sections.Conv2dk3Vector: zero borders only, as built by default; the replicated-border variant and the main loop for wide lines, whose trip count is fixed to 0, are left out.
- The remainder section of the 1x1 kernel, whose size is fixed to 0, and the int8-activation variants of the convolutions.
- Conv3x3.Conv2dk3Scalar: widths below two are left out, because the right end then reads before the line (Conv3x3.LinesNeedTwoPixelsIff).
- ConvSkipInit.SkipInitVector: rows of two or more blocks with channel counts of 8 or more modulo 16 are left out, because the second block then starts before the weights (ConvSkipInit.SecondBlockReadsBefore).
- DmaLowering.SetMultiDimAddr: the emitted C++ text around the numbers is not modelled.
- The text of emitted files: NPU words as hexadecimal, the airbin ELF container, section names, JSON punctuation.
- NpuTransaction.Instructions.Translate: errors reported for symbolic addresses and missing data are not modelled beyond their effect on the words.
- Operations other than control packets inside a control-packet sequence, which the source skips.
- ControlPackets.AppendControlPacket: where the source takes the value of missing data the model only reports that the result is undefined.
- Airbin.MemWrites.ClearRange: ranges on which the loop never stops are left out; Airbin.RangeEndsIff says which these are.
- Airbin.MemWrites.Execute: stops at the first refused command, where the source ends the program.
- Everything that fills the airbin map (tile, switchbox, DMA and ELF configuration) and the register address tables.
- BdAssignment.MapChannels: a block has the one terminator the verifier allows; descriptors of core and shim tiles, which are numbered in order, are left out.
- FlowQueues.TraceFlow: asks that no port is driven twice (which the switchbox verifier checks), that entered switchboxes exist and that the flow does not return; the step through a shim mux, the list of flows and the tracing of packet flows, which differ only in how connections are found, are left out.
- Stream-switch counters and total path length of the JSON output.
- Register contents as seen by locks, DMA channels and cores: a record of the transaction stream is a write to a register map.
