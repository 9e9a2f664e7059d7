# Halide lowering and scheduling, modelled and proved

A Dafny model of the parts of this Halide fork that rewrite programs or keep linked tables, with proofs about every
input, every run or every interleaving. `dafny verify dfyconfig.toml` checks all of it. Integers are mathematical
integers; division and remainder are Euclidean, as in `src/CodeGen_Internal.h`.

Code that updates fields is a `class` or a `method` with the same loops, and its contract ties the new state to a
function of the old one; the theorems are about those functions.

* **Asynchronous producers** (`StmtIR`, `Async*`). A body that realizes an asynchronous function is split into a
  producer copy and a consumer copy with one semaphore per consume node. `AsyncMachine` runs the two copies as threads,
  one atomic step at a time, over one store. `StmtIR.Trace` is what the body does on one thread: its stores, and the
  control it reads from functions that it writes. The theorems ask for: a body without semaphores, forks and nested
  asynchronous functions, in which each execution of the produce node is followed by one execution of each consume node;
  a produce node that writes only the function and loads, of what the body writes, only the function; all other loads of
  the function inside its consume nodes; conditions, lets and loop bounds around the produce node that load nothing the
  body writes; and a sequential run in which no cell of the function is overwritten with another value after it was
  consumed. Control inside the produce node may read the function, and control inside a consume node may read anything.
  `AsyncPlaces` asks only for a body without semaphores and forks: it says where every store and node ends up.
  `AsyncExpand` and `AsyncMoves` are about the two passes that move acquires and forks afterwards: the set of sequences
  of actions a statement can go through, and how far things move.
* **Common subexpression elimination** (`CseIR`, `CseGVN`, `CseSound`, `CseLets`, `CseTaken`, `CseExact`, `CseShare`,
  `CseWorth`, `CseMethods`). Expressions are graphs: a node has a tag for its address, and both numberings, the use
  counts and the replacer are as in `src/CSE.cpp`. Operators and functions are uninterpreted. Meaning is preserved when
  no let name is free in the input and no node or let occurs under two bindings that give it different let-free texts;
  the same name may be bound to different values in different scopes. `CseExact.EliminateExactly` says when it is
  preserved at all, in terms of what a traversal of the input takes it for (`CseTaken`).
* **The Partitioner** (`PartitionModel`, `PartitionProof`, `PartitionTheorem`, `PartitionMerge`, `Partitioner`). The
  tables `groups`, `children`, `group_costs` and `grouping_cache`, the greedy loop, and both phases. The cost of a group
  is an uninterpreted function of it.
* **Regions** (`Regions`, `RegionsTheorem`, `RegionsTight`, `RegionsMethods`). The worklist of `regions_required`, with
  its cache: what is needed is covered, and nothing without need.
* **Bounds and boxes** (`Bounds*`, `Intervals`, `Boxes*`). The interval of an expression and the boxes of what a
  statement provides. The simplifier, the prover and the solver are parameters with a contract. Soundness asks for
  divisors of a remainder that are not zero, lets that capture nothing, and half-bounded divisors and branches that fit;
  for the last two the exact conditions are proved. `BoundsTight` and `BoundsExact` say that ends are values that are
  taken, `BoxesTight` that boxes grow and shrink by no more and no less than they should. `BoxesLimits` says exactly
  when the boxes pass stops with an error.
* **Windows mangling** (`Windows*`). Names character by character, a reader that replays the two ten-slot tables, and
  one with its own table of types (`WindowsTypes`).
* **Splitting loops** (`ApplySplit`, `SplitCode`, `SplitStep`, `SplitTheorem`, `SplitKnown`). Any list of split, fuse
  and rename directives, with the code that is emitted for them.
* **Aligned loads** (`AlignLoads`, `AlignLoadsSound`) and **inlining** (`Inlining`, `InliningProof`, `InliningCse`). The
  inliner runs the elimination above, and the tie between the two is proved.

## Model

| member | source | states |
|---|---|---|
| AsyncFork.ProducerSucceeds | src/AsyncProducers.cpp:96-185 | The producer copy can be made exactly when the body has at most one produce node of the function and a consume node to release; making it uses up the semaphores. |
| AsyncFork.GenerateProducerBody.Mutate | src/AsyncProducers.cpp:96-185 | The visitor, with its vector of semaphores updated in place, computes the producer copy, and stops exactly when the copy does not exist. |
| AsyncFork.GenerateConsumerBody.Mutate | src/AsyncProducers.cpp:187-241 | The visitor computes the consumer copy and takes one semaphore off the vector for each consume node. |
| AsyncFork.ForkRealize | src/AsyncProducers.cpp:296-346 | Forking gives both copies over one semaphore per consume node, or reports the failed assertion. |
| AsyncShape.ConsumerKeeps | src/AsyncProducers.cpp:17-94 | The consumer copy of a statement without the function does the same, but for reads of control that nothing depended on. |
| AsyncShape.ProducerVanishes | src/AsyncProducers.cpp:17-148 | The producer copy of a statement without the produce node collapses to nothing. |
| AsyncShape.ProduceTrace | src/AsyncProducers.cpp:103-113 | One execution of the produce node stores only to the function and reads, of what the body writes, only the function. |
| AsyncSplit.Decompose | src/AsyncProducers.cpp:296-346 | The body, its producer copy and its consumer copy fall apart into the same sequence of segments: idle ones, and rounds of one produce and its consumes. |
| AsyncCount.BalancedSemas | src/AsyncProducers.cpp:103-113 | For each semaphore the consumer acquires as often as the producer releases: once per execution of the produce node. |
| AsyncCount.CopiesPartition | src/AsyncProducers.cpp:96-241 | The two copies share out the actions of the body: the producer's stores to the function are exactly the body's, and the consumer has exactly all the others, each in the order of the body. |
| AsyncCount.ReleasedIsWritten | src/AsyncProducers.cpp:103-113 | After k releases of a semaphore the first k executions of the produce node have made all their stores. |
| AsyncMachine.PerformsTrace | src/AsyncProducers.cpp:296-346 | A thread whose store agrees on everything that does not change goes through exactly the trace of its statement. |
| AsyncMachine.AdvanceFollows | src/AsyncProducers.cpp:296-346 | The next step of a thread is the next action of its trace, as long as the control it recorded still reads the same. |
| StmtIR.RunIsTrace | src/AsyncProducers.cpp:296-346 | Replaying the trace of any statement gives the store that running it gives. |
| AsyncTheorem.ForkedRunIsSequential | src/AsyncProducers.cpp:296-346 | Under the hypotheses above every finished interleaving has the store of the sequential run, and all semaphores are at zero. |
| AsyncTheorem.ForkedNeverDeadlocks | src/AsyncProducers.cpp:296-346 | No reachable state of the forked body is stuck. |
| AsyncTheorem.ForkedAlwaysStops | src/AsyncProducers.cpp:296-346 | Every interleaving ends, and all of them take the same number of steps. |
| AsyncTheorem.ConsumeFollowsProduce | src/AsyncProducers.cpp:187-207 | In every reachable state no semaphore was acquired more often than released, the k-th entry to a consume node comes after all stores of the k-th produce, and each thread keeps the order of the sequential run. |
| AsyncTheorem.DisjointIsUndisturbed | src/AsyncProducers.cpp:296-346 | Produce instances that write disjoint cells, or the same values, and consumers that read what was produced, meet the hypothesis on overwriting. |
| AsyncLimits.UnsteadySpineDeadlocks | src/AsyncProducers.cpp:115-131 | A condition around the produce node that reads a store of the body makes a forked run stop in the middle with both threads unable to move, although all other hypotheses hold. |
| AsyncGuards.GuardDeadlocksExactly | src/AsyncProducers.cpp:96-241 | For any stores before `if (c) { produce f; consume f }`: some run of the forked body gets stuck if and only if c holds after all the stores but not at some moment before. |
| AsyncGuards.StepKeeps | src/AsyncProducers.cpp:96-241 | Whatever thread moves, what is known of the places of both, of the semaphore and of the store stays true. |
| AsyncPlaces.ConsumerKeepsPlaces | src/AsyncProducers.cpp:17-94 | The consumer copy has exactly the stores and nodes of the body that are not production of the function, each inside the same loops, lets, conditions, nodes and realizations, and nothing hollow around them. |
| AsyncPlaces.ProducerKeepsPlaces | src/AsyncProducers.cpp:17-148 | The producer copy has exactly the production of the function, each store inside what it was in but for the produce nodes of other functions, and nothing hollow. |
| AsyncPlaces.SidesKeepStorage | src/AsyncProducers.cpp:17-241 | If every store and load of a realized function is inside a realization of it, so it is in both copies. |
| AsyncExpand.ExpandKeepsTraces | src/AsyncProducers.cpp:493-544 | Moving acquires outwards leaves the set of possible sequences of actions of every statement as it was, forks included, when lets around acquires have values that do not change; which semaphore is acquired may depend on enclosing lets. |
| AsyncExpand.TightForkKeepsTraces | src/AsyncProducers.cpp:546-589 | A tightened fork of two statements whose lets have values that do not change has exactly the interleavings of the two. |
| AsyncExpand.TightenKeepsTraces | src/AsyncProducers.cpp:546-611 | Moving forks inwards leaves the set of possible sequences of every statement as it was, when lets inside forks have values that do not change. |
| AsyncExpand.TracesAreTrace | src/AsyncProducers.cpp:493-611 | Without forks, exactly one of the possible sequences is one whose tests of control find what they recorded, and it is the trace of the sequential run, whatever the control reads. |
| AsyncExpand.LetOverAcquireExactly | src/AsyncProducers.cpp:522-533 | Moving an acquire out of a let keeps the possible sequences if and only if the value of the let reads nothing that changes. |
| AsyncExpand.LetOverForkExactly | src/AsyncProducers.cpp:549-568 | Moving a fork inside a let, beside a statement that stores, keeps the possible sequences if and only if the value of the let reads nothing that changes. |
| AsyncMoves.ExpandIsBroad | src/AsyncProducers.cpp:493-544 | After the first pass no acquire is left first in a block or as the body of a realization or a produce/consume node, and a let around one is one its count or semaphore needs; a let that an acquire was moved out of already is not looked at again. |
| AsyncMoves.ExpandKeepsPlaces | src/AsyncProducers.cpp:493-544 | Moving acquires moves nothing else: every store stays inside the same loops, lets, conditions, nodes and realizations. |
| AsyncMoves.TightForkIsNarrow | src/AsyncProducers.cpp:546-589 | A tightened fork is inside every let and realization of its children that it can be inside of. |
| AsyncMoves.TightenIsNarrow | src/AsyncProducers.cpp:546-611 | After the second pass every fork is inside all lets and realizations it can be inside of, has no empty child, and nothing unused is left under it. |
| AsyncMoves.TightenKeepsStorage | src/AsyncProducers.cpp:546-611 | Moving forks leaves every store and load of a realized function inside a realization of it. |
| AsyncMoves.TightenKeepsSpots | src/AsyncProducers.cpp:546-611 | Every store stays inside the same loops, conditions and nodes: only lets and realizations move, whatever the lets read. |
| CseLets.EliminateMeans | src/CSE.cpp:287-338 | The result has the value of the input in every environment and for every meaning of the operators, if no let name is free and no object occurs under two bindings that tell it apart. |
| CseLets.EliminateMeansUnique | src/CSE.cpp:287-338 | In particular when let names are unique and not free. |
| CseLets.LettingMeans | src/CSE.cpp:303-333 | Whatever the input, counting uses, choosing lets and wrapping them keeps the meaning of the canonical form. |
| CseLets.LetsReferBackwards | src/CSE.cpp:303-333 | The result is a chain of lets around a body, and the value of each let mentions only variables of the input and lets introduced before it. |
| CseLets.ChosenOrdered | src/CSE.cpp:84-184 | Whatever the input, the chosen entries are let-free, listed after all their proper parts, and use only variables of the input. |
| CseLets.CapturedNamesConfuse | src/CSE.cpp:113-141 | For `f(y, let x = 2 in y)` with one shared object `y = g(x)`, in which the let name x is free as well, the result means something else under some meaning of the operators. |
| CseLets.ReplaceIsRepl | src/CSE.cpp:248-270 | A memo filled by earlier replacements, with the newest entry dropped, never changes what a replacement gives. |
| CseSound.MutateSound | src/CSE.cpp:113-166 | Numbering an expression returns an entry with its let-free text and its value, and keeps that of all earlier entries. |
| CseSound.CanonicalMeans | src/CSE.cpp:84-184 | The canonical form of a coherent expression has no lets, has the let-free text of the input, and has its value. |
| CseSound.DistinguishableIsCoherent | src/CSE.cpp:113-141 | The condition of EliminateMeans is enough for the numbering by object never to hand out an entry made under other lets. |
| CseSound.UniqueIsCoherent | src/CSE.cpp:84-184 | Unique let names are enough as well. |
| CseExact.EliminateExactly | src/CSE.cpp:287-338 | For every input: elimination preserves meaning if and only if the input, each object taken for the text under which it was remembered, is taken for its let-free text. |
| CseExact.TextsAreToldApart | src/CSE.cpp:287-338 | Two different let-free texts have different values under some meaning of the operators. |
| CseExact.FreeNameMayBeHarmless | src/CSE.cpp:113-141 | The condition of EliminateMeans is not necessary: a let name that is free only where the numbering has yet to meet it does no harm. |
| CseTaken.CanonicalIsTaken | src/CSE.cpp:84-184 | For every input: the text of the canonical form is what a traversal of the input alone, without entries and numbers, takes it for. |
| CseTaken.MutateTakes | src/CSE.cpp:113-166 | Both numberings, seen as what is remembered of the objects and texts met so far, stay in step with that traversal. |
| CseGVN.MutateShaped | src/CSE.cpp:113-166 | Numbering keeps its tables in form: entries are distinct texts, each one's parts are entries before it, and both numberings point at the right entry. |
| CseShare.SharesFully | src/CSE.cpp:303-333 | Whatever the input, what should_extract accepts is written at most once in all introduced let values and the body together. |
| CseShare.WrittenOnce | src/CSE.cpp:216-245 | Each entry that may be extracted and is part of the canonical form is written exactly once in the lets and the body. |
| CseShare.IncludeBalanced | src/CSE.cpp:216-245 | Although the children of a visited node are counted once, the use counts agree with how often entries get written. |
| CseWorth.ExtractIsWorth | src/CSE.cpp:27-80 | should_extract accepts exactly the let-free expressions that are no constant, variable, parameter or impure call, and, unless all are lifted, no arithmetic with a constant operand and no ramp of constant stride, under any broadcasts and casts. |
| CseWorth.WorthIsWrittenOnce | src/CSE.cpp:287-338 | Whatever the input, an expression that is worth a let in that sense is written at most once in all let values and the body of the result. |
| CseWorth.LetsAreWorth | src/CSE.cpp:303-333 | Every introduced let stands for an expression that is worth it, and its variable is used at least twice. |
| CseMethods.GVN.Mutate | src/CSE.cpp:113-166 | The visitor with its four tables updated in place computes the numbering the theorems are about. |
| CseMethods.ComputeUseCounts.Include | src/CSE.cpp:216-245 | The counting visitor updates the counts and the visited set as the counting function says. |
| CseMethods.Replacer.Mutate | src/CSE.cpp:248-270 | The replacer returns the replacement and enters it in its table. |
| CseMethods.PickLets | src/CSE.cpp:303-317 | The loop over the entries lists those used more than once, in order, with their names and variables. |
| CseMethods.WrapInLets | src/CSE.cpp:319-333 | The loop from the last let to the first, with one replacer kept through it, gives the nested lets. |
| CseMethods.CommonSubexpressionElimination | src/CSE.cpp:287-338 | The whole pass as it runs returns what EliminateMeans and SharesFully speak about. |
| PartitionProof.MergedIsEvaluated | src/AutoSchedule.cpp:2037-2148 | Evaluating a choice analyses exactly the group that the merge later leaves in the table, though the members are put together differently. |
| PartitionProof.BestConfigIsBest | src/AutoSchedule.cpp:1583-1630 | No eligible tiling costs less than the chosen one, and neither does no tiling. |
| PartitionProof.BestConfigAnalysis | src/AutoSchedule.cpp:1583-1630 | The analysis returned is the one of the tiling returned. |
| PartitionProof.StepKeepsGrouped | src/AutoSchedule.cpp:2037-2091 | A merge keeps every stage in a group, and every function in one kind of place. |
| PartitionProof.StepKeepsLinks | src/AutoSchedule.cpp:1727-1748 | A merge keeps links inside the groups and pointing forward. |
| PartitionProof.StepKeepsCosts | src/AutoSchedule.cpp:2059-2091 | After a merge each entry of group_costs is still the analysis of its group. |
| PartitionTheorem.StepKeepsReach | src/AutoSchedule.cpp:1727-1748 | Between stages of other functions, one reaches the other through children after the step exactly when it did before. |
| PartitionTheorem.ForwardIsAcyclic | src/AutoSchedule.cpp:1331-1360 | No stage reaches itself through children. |
| PartitionTheorem.MergedCostsBenefit | src/AutoSchedule.cpp:2150-2225 | Merging with any configurations lowers the cost of the pipeline by exactly the benefit estimated for them; an undefined cost stays undefined. |
| PartitionTheorem.GainIsSaved | src/AutoSchedule.cpp:2174-2225 | The merge that was chosen saves the benefit it was chosen for. |
| PartitionTheorem.IterationGains | src/AutoSchedule.cpp:1632-1755 | Each iteration of group() keeps the tables sound, leaves fewer groups, and lowers the cost by its benefit, which is positive. |
| PartitionTheorem.RunGains | src/AutoSchedule.cpp:1632-1755 | Over a whole run the cost falls by at least one per iteration, at least one group goes per iteration, and dependences between the stages left are those of the beginning. |
| PartitionTheorem.StepKeepsFresh | src/AutoSchedule.cpp:1709-1725 | Dropping only the entries that name a merged child leaves every cached evaluation of live stages equal to a new one. |
| PartitionTheorem.StepKeepsSound | src/AutoSchedule.cpp:1632-1755 | A merge step of any candidate keeps the whole invariant of the tables. |
| PartitionTheorem.StepHasFewerGroups | src/AutoSchedule.cpp:1722-1731 | A merge step takes groups away and adds none. |
| PartitionTheorem.ExactlyOnePlace | src/AutoSchedule.cpp:1632-1682 | No stage is lost, and each function is exactly one of: live, inlined wherever it is held, or a plain member of groups of one live function. |
| PartitionTheorem.StartIsSound | src/AutoSchedule.cpp:1305-1370 | The tables the constructor builds are sound when all functions have bounds. |
| PartitionTheorem.UnboundedMustBeIsolated | src/AutoSchedule.cpp:1315-1360 | The links the constructor builds stay inside its groups if and only if no function without bounds takes part in the graph. |
| PartitionMerge.BenefitExactly | src/AutoSchedule.cpp:2150-2225 | A merge has a benefit if and only if all groups it replaces have been analysed, and all merged groups have, each with at least the parallelism the architecture asks for. |
| PartitionMerge.ProfitableIsParallel | src/AutoSchedule.cpp:2150-2225 | Every group that a profitable merge makes has been analysed and has that parallelism. |
| PartitionMerge.RunIsParallel | src/AutoSchedule.cpp:1632-1755 | Over a whole run, every group that a merge made has been analysed and has that parallelism. |
| PartitionMerge.BestConfigIsTiledBest | src/AutoSchedule.cpp:1583-1630 | The tiles chosen for a group are no tiling, or one that was offered and is cheaper with enough parallelism, and none offered is cheaper than it. |
| PartitionMerge.StepMovesMembers | src/AutoSchedule.cpp:2037-2091 | A merge takes the stages of the function out of the tables, gives every child all their members, inlined or tiled anew, and leaves all other groups alone. |
| PartitionMerge.RunInlinesPure | src/AutoSchedule.cpp:1632-1755 | Over both phases only pure functions get inlined, and the first phase does nothing but inline. |
| PartitionMerge.CandidateExactly | src/AutoSchedule.cpp:1638-1682 | On sound tables a function may be merged if and only if it is live, no output, and has an entry of children; for inlining it is pure, and for tiling all its children are stages of one function. |
| Partitioning.MakeGroups | src/AutoSchedule.cpp:1312-1329 | The loops of the constructor make one group for every stage of every function with bounds. |
| Partitioning.MakeChildren | src/AutoSchedule.cpp:1331-1360 | The loops of the constructor give each stage the stages that call it. |
| Partitioning.FindBestTileConfig | src/AutoSchedule.cpp:1583-1630 | The loop over the tilings returns the best configuration. |
| Partitioning.TotalCost | src/AutoSchedule.cpp:1252-1266 | The loop adds up the costs, and is undefined as soon as one is. |
| Partitioning.SumAnalyses | src/AutoSchedule.cpp:2174-2225 | The loop adds up analyses of groups whatever the order of the stages. |
| Partitioning.PartitionPipeline | src/AutoSchedule.cpp:3490-3504 | From the constructor through both phases: the tables are sound after each, each run is a sequence of chosen merges, and when it ends no merge is profitable. |
| Partitioning.Partitioner.InitializeGroups | src/AutoSchedule.cpp:1363-1370 | Every group gets its best configuration and the analysis of it, and the cache is empty. |
| Partitioning.Partitioner.GetPipelineCost | src/AutoSchedule.cpp:1252-1266 | Returns the sum over all groups, and leaves the tables alone. |
| Partitioning.Partitioner.Candidates | src/AutoSchedule.cpp:1638-1682 | Lists exactly the functions that may be merged at this level. |
| Partitioning.Partitioner.EvaluateChoice | src/AutoSchedule.cpp:2093-2148 | Returns the configuration of the group that a merge would make. |
| Partitioning.Partitioner.EstimateGrouping | src/AutoSchedule.cpp:2174-2225 | Returns the difference between the groups replaced and the groups made, or nothing if a cost is undefined. |
| Partitioning.Partitioner.ChooseCandidateGrouping | src/AutoSchedule.cpp:1416-1472 | With the cache, returns a candidate whose benefit is positive and at least that of every other one, or none if no benefit is positive. |
| Partitioning.Partitioner.EvaluateAll | src/AutoSchedule.cpp:1423-1445 | Cached or new, the configurations are those of a new evaluation, and the cache stays up to date. |
| Partitioning.Partitioner.InvalidateCache | src/AutoSchedule.cpp:1709-1720 | Drops exactly the entries that name a merged child. |
| Partitioning.Partitioner.MergeGroups | src/AutoSchedule.cpp:2059-2091 | The group of the child takes in all stages of the function, and its cost entry becomes the evaluated one. |
| Partitioning.Partitioner.MergeIntoAll | src/AutoSchedule.cpp:1722-1725 | All children take in the function, whatever the order. |
| Partitioning.Partitioner.RedirectStage | src/AutoSchedule.cpp:1733-1748 | The parents of the erased stage now point at the children of its function. |
| Partitioning.Partitioner.EraseProducer | src/AutoSchedule.cpp:1727-1748 | The stages of the merged function leave groups, costs and children, and no other entry does. |
| Partitioning.Partitioner.MergeBest | src/AutoSchedule.cpp:1701-1748 | One iteration leaves the tables that the step function gives, sound, with a cache that is up to date. |
| Partitioning.Partitioner.GroupStages | src/AutoSchedule.cpp:1632-1755 | The loop ends, after a sequence of most profitable merges, where none is left. |
| RegionsTheorem.RegionsCover | src/AutoSchedule.cpp:388-540 | Every point of a function that is transitively demanded through producers lies in the region found for it. |
| RegionsTheorem.SweepEmptiesQueue | src/AutoSchedule.cpp:408-540 | In realization order one backward sweep empties the queue, and each stage is handled once and after all its consumers. |
| RegionsTheorem.OrderIsTopological | src/AutoSchedule.cpp:416-426 | Backward over a realization order, each stage needs only stages still to come. |
| RegionsTheorem.ProcessKeeps | src/AutoSchedule.cpp:408-540 | Handling a stage settles what it needs and unsettles nothing handled before. |
| RegionsTheorem.ChainHandled | src/AutoSchedule.cpp:388-540 | Along any chain of demands, each stage was handled with bounds that hold the demanded point. |
| RegionsTight.HullIsLeast | src/AutoSchedule.cpp:316-330 | The union of two intervals encloses both, and whatever encloses both encloses it. |
| RegionsTight.RegionsAreTight | src/AutoSchedule.cpp:292-540 | No region is too large: every end of a region that is found is an end of a region some handled stage needs, and every end of the bounds a stage is handled with is one of the query, or comes from such a region. |
| RegionsMethods.DependenceAnalysis.RegionsRequired | src/AutoSchedule.cpp:388-540 | An answer that is not cached is the sweep's under the current estimates; a cached one is the sweep's under estimates of some earlier call, so it is the fresh one whenever all calls have the same estimates. |
| RegionsMethods.DependenceAnalysis.Compute | src/AutoSchedule.cpp:408-540 | The loop around the sweep runs once and returns the regions of the sweep. |
| RegionsMethods.DependenceAnalysis.FindAnswer | src/AutoSchedule.cpp:397-406 | Returns an answer with equal bounds, if there is one. |
| RegionsMethods.DependenceAnalysis.SweepOnce | src/AutoSchedule.cpp:417-540 | Goes through the functions backward. |
| RegionsMethods.DependenceAnalysis.SweepStages | src/AutoSchedule.cpp:420-540 | Goes through the stages of a function forward, skipping those not in the queue. |
| RegionsMethods.DependenceAnalysis.ProcessStage | src/AutoSchedule.cpp:423-540 | Marks the stage, merges and queues what it needs, and takes it off the queue. |
| RegionsMethods.DependenceAnalysis.MergeAndQueueRegions | src/AutoSchedule.cpp:349-383 | Merges each region that counts, and queues the stages of producers. |
| RegionsMethods.DependenceAnalysis.QueueFuncRegions | src/AutoSchedule.cpp:292-344 | Queues all stages of a function with the bounds that its region gives them. |
| RegionsMethods.DependenceAnalysis.QueueStageRegions | src/AutoSchedule.cpp:316-342 | A stage that is queued already has its bounds widened, one handled with as many bounds is left alone, and any other is queued. |
| RegionsMethods.DependenceAnalysis.BoundsByName | src/AutoSchedule.cpp:298-304 | The box as bounds of the arguments. |
| RegionsMethods.MergeBoxesInPlace | src/Bounds.cpp:1337-1412 | The union of two boxes, dimension by dimension. |
| RegionsMethods.AskTwice | src/AutoSchedule.cpp:152-185 | For f that reads g at a parameter, asked for twice: the second answer is that of an analysis without the first call if and only if both calls have the same estimate of the parameter. |
| Intervals.CombineMeans | src/Interval.cpp:11-91 | However make_min and make_max rebalance, the value is the minimum or maximum of the two, and the rebalancing ends. |
| Intervals.IncludeMeans | src/Interval.cpp:93-101 | Including an expression widens the interval by its value and no more. |
| BoundsTheorem.BoundsAreSound | src/Bounds.cpp:291-1252 | In every environment that respects the scope the value of the expression lies between the evaluated minimum and maximum. |
| BoundsTheorem.BoundsUse | src/Bounds.cpp:291-1252 | The bounds mention only names of the scope's intervals and names of the expression that are not in scope. |
| BoundsTheorem.HalfBranchExactly | src/Bounds.cpp:787-797 | Returning a half-bounded branch of a select is right for all values if and only if the other branch is bounded on that side at least as tightly. |
| BoundsTheorem.WrapMeans | src/Bounds.cpp:1235-1251 | Wrapping the bounds of a let value around a bound binds both of their names, if the minimum does not mention the name of the maximum. |
| BoundsTheorem.CapturedExactly | src/Bounds.cpp:1235-1251 | Wrapping any bound of any body goes wrong exactly where that bound tells the lower bound of the value from what it becomes when the name of the upper bound is bound around it. |
| BoundsTheorem.NeverCapturedExactly | src/Bounds.cpp:1235-1251 | Every bound of every body is wrapped right if and only if the lower bound of the value does not depend on what the name of the upper bound stood for; it does not if it does not mention that name. |
| BoundsSound.HalfDivisorExactly | src/Bounds.cpp:546-549 | Returning a half-bounded divisor as the interval of a remainder is right for all values if and only if it is bounded below, by a value that is not positive. |
| BoundsSound.CornersSound | src/Bounds.cpp:416-538 | The minimum and maximum over the four corners cover every product, and every quotient by divisors of one sign. |
| BoundsSound.QuotientCorners | src/Bounds.cpp:486-538 | A Euclidean quotient lies between two of the quotients of the corners when the divisors have one sign. |
| BoundsSound.RemainderSound | src/Bounds.cpp:540-579 | The interval of a remainder covers it, for negative divisors too, when the divisor's interval fits. |
| BoundsSound.SelectSideMeans | src/Bounds.cpp:784-870 | Each side of a select's interval is the value of a branch and bounds the branch taken, whether the condition is known or not. |
| BoundsTight.OperateIsTight | src/Bounds.cpp:329-766 | Wherever the operands can have values at all, both ends of the interval of an operator other than a remainder, an equality or a connective are values of it at allowed operands, and an end is infinite only where those values go on for ever; unless the visitor gives up. |
| BoundsTight.OperateEnds | src/Bounds.cpp:329-766 | The same for any sets of operand values that have the ends of the intervals, connectives included; and where the visitor gives up the result is everything its type has. |
| BoundsTight.RemainderTight | src/Bounds.cpp:540-579 | Both ends of the interval of a remainder by a bounded divisor are remainders of some number by an allowed divisor. |
| BoundsTight.EqualTight | src/Bounds.cpp:648-700 | The upper end of an equality and the lower end of an inequality is its value at allowed operands, and the other one too unless only one value is allowed. |
| BoundsExact.BoundsAreExact | src/Bounds.cpp:291-1252 | Both ends of the interval of an expression, through any nest of operators, selects and lets, are values it takes for some values of the variables in their intervals, if it uses each variable of the scope once and no visitor gives up. |
| BoundsExact.EndsAreValues | src/Bounds.cpp:291-1252 | The same for variables that can have some of the values in their intervals, as long as these have the ends. |
| BoundsMethods.Bounds.Accept | src/Bounds.cpp:174-1252 | The visitor overwrites the interval with the one the theorems are about, and leaves the scope as it was. |
| BoundsMethods.Bounds.VisitBinary | src/Bounds.cpp:329-766 | The visitors of operators, with the order in which they visit their operands. |
| BoundsMethods.Bounds.VisitSelect | src/Bounds.cpp:784-870 | The visitor of a select, with its early returns. |
| BoundsMethods.Bounds.VisitLet | src/Bounds.cpp:1198-1252 | The visitor of a let pushes the named bounds, pops them, and wraps the result. |
| BoundsMethods.BoundsOfExprInScope | src/Bounds.cpp:1301-1325 | The whole analysis as it runs returns the interval that BoundsAreSound is about. |
| BoundsMethods.UniqueIsHygienic | src/Bounds.cpp:1198-1252 | Lets that rebind no name, and whose bound names nobody uses, meet the condition that BoundsAreSound puts on names. |
| BoundsMethods.ReboundIsUnsound | src/Bounds.cpp:1235-1251 | For `let x = y in let x = 0 - x in x` the value lies outside the interval. |
| Boxes.MergeSound | src/Bounds.cpp:1337-1412 | What is in either of two conditional boxes is in their union, whichever condition is the true one. |
| BoxesKeep.BoxesKept | src/Bounds.cpp:1592-2230 | Whatever a statement does, no coordinate leaves the boxes that were there. |
| BoxesKeep.BranchesKeep | src/Bounds.cpp:2124-2172 | Forking and merging the boxes of two branches keeps what was there and has what the branch taken has. |
| BoxesSound.BoxesAreSound | src/Bounds.cpp:1592-2230 | If the pass does not stop, every coordinate written on a run lies in the box of its function, and the condition of that box is true. |
| BoxesSound.TrimmedSound | src/Bounds.cpp:1941-2005 | The boxes found with trimmed scopes cover what the branch writes, with the lets that depend on a trimmed variable trimmed too. |
| BoxesSound.RestrictCovers | src/Bounds.cpp:2092-2109 | Where the condition holds, the interval restricted by it still covers the variable. |
| BoxesSound.LoopSound | src/Bounds.cpp:2174-2201 | If the end of the loop can be computed, the loop interval covers every iteration. |
| BoxesTight.UnionExactly | src/Bounds.cpp:1337-1412 | The union of two boxes applies exactly where one of them does, and every end of it is the farthest end of those that apply, infinite only if one of the two is. |
| BoxesTight.IndicesAreExact | src/Bounds.cpp:2203-2222 | Both ends of every dimension of the box of a provide are values its index takes, if that uses each variable of the scope once and no visitor gives up. |
| BoxesTight.LoopExactly | src/Bounds.cpp:2174-2201 | A loop variable is covered exactly from the first allowed start to the last iteration of an allowed start and an allowed extent. |
| BoxesTight.RestrictExactly | src/Bounds.cpp:2092-2109 | A condition trims exactly those ends that are finite on both sides of it, to exactly the values that meet it for some allowed value of the other side. |
| BoxesTight.RestrictedMeet | src/Bounds.cpp:2092-2109 | Where the ends concerned are finite, the restricted interval is exactly the part of the old one that can meet the condition. |
| BoxesTight.GuardNarrows | src/Bounds.cpp:2024-2122 | The branch of a condition is analysed in a scope in which exactly the variables the condition can be solved for are narrowed, each to what can meet it, when no enclosing let reads them. |
| BoxesTight.DependentsExactly | src/Bounds.cpp:1941-1955 | Exactly the lets that depend on a trimmed variable, through any chain of lets, are trimmed with it. |
| BoxesTight.LetTrimmedExactly | src/Bounds.cpp:1964-1983 | The names of a trimmed let are bound to exactly what its value under the condition and its old bounds both allow. |
| BoxesLimits.StopsExactly | src/Bounds.cpp:1592-2230 | The pass stops if and only if, on its way, it adds up the end of a loop from an infinite bound, or compares an infinite with a finite bound of a trimmed let whose names a box uses. |
| BoxesLimits.TrimmedChainStops | src/Bounds.cpp:1941-2005 | It stops for `let w = v + 1; let u = w + 1; if (v < 10) f(u) = ..`, where nothing is known of v. |
| BoxesLimits.NamedLetExactly | src/Bounds.cpp:1844-1899 | For `let v = x; f(v) = ..` the box covers everything between the bounds of x if and only if these are small, or both finite. |
| BoxesLimits.UnboundedLetIsCut | src/Bounds.cpp:1844-1899 | For `let v = max(u, large); f(v) = ..`, where nothing is known of u and the lower bound of large has ten variables or more, some run writes beyond the box. |
| BoxesMethods.MergeBoxesInto | src/Bounds.cpp:1337-1412 | The loop over the dimensions changes the first box into the union. |
| BoxesMethods.BoxesTouched.Accept | src/Bounds.cpp:1592-2230 | The visitor grows its boxes as the theorems say, and leaves the scope and the lets as they were; it fails exactly where the pass stops. |
| BoxesMethods.BoxesTouched.VisitProvide | src/Bounds.cpp:2203-2222 | Merges the box of the indices into the box of the function. |
| BoxesMethods.BoxesTouched.VisitFor | src/Bounds.cpp:2174-2201 | Pushes the loop interval, visits the body and pops it; fails exactly where the end or the body stops the pass. |
| BoxesMethods.BoxesTouched.VisitLets | src/Bounds.cpp:1786-1925 | Enters a nest of lets in a loop and leaves it in reverse, wrapping the boxes; fails exactly where the body stops the pass. |
| BoxesMethods.BoxesTouched.VisitIfThenElse | src/Bounds.cpp:2024-2172 | Chooses between trimming the scope and forking the boxes; fails exactly where a branch stops the pass. |
| BoxesMethods.BoxesTouched.VisitTrimmed | src/Bounds.cpp:1941-2005 | Trims, visits and restores: afterwards the scope is what it was; fails exactly where the branch or the trimming stops the pass. |
| BoxesMethods.BoxesTouched.BindTrimmed | src/Bounds.cpp:1964-2002 | Binds the names of a trimmed let in all boxes; fails exactly when a box uses one of them and one of the two bounds to compare is infinite while the other is not. |
| BoxesMethods.BoxesTouched.MergeForked | src/Bounds.cpp:2124-2172 | Merges the boxes of both branches, function by function, each under its condition. |
| WindowsRoundTrip.RoundTrip | src/CPlusPlusMangle.cpp:274-307 | Reading a mangled name back gives the name, the namespaces, the return type and all argument types. |
| WindowsRoundTrip.SameNameSameFunction | src/CPlusPlusMangle.cpp:274-307 | Two signatures with the same mangled name are the same function. |
| WindowsRoundTrip.SettledStays | src/CPlusPlusMangle.cpp:45-79 | Entering again the names of a type that was entered never changes the name table. |
| WindowsRoundTrip.TypeReads | src/CPlusPlusMangle.cpp:192-272 | One emitted type is read back with the rest of the text left over, and the tables of writer and reader still agree. |
| WindowsRoundTrip.TypesRead | src/CPlusPlusMangle.cpp:291-304 | The types of any argument list are read back, up to the closing mark. |
| WindowsRoundTrip.KnownReads | src/CPlusPlusMangle.cpp:49-74 | A type that the table holds comes out as its digit, is read back, and changes no table. |
| WindowsRoundTrip.NewReads | src/CPlusPlusMangle.cpp:49-79 | A type that the table does not hold comes out with its names substituted, is read back, and is entered by both sides while there is room. |
| WindowsRoundTrip.FullTells | src/CPlusPlusMangle.cpp:182-227 | Two types with the same full text are the same type. |
| WindowsTables.TablesExactly | src/CPlusPlusMangle.cpp:45-79 | After any types the two tables hold exactly the first ten different names and the first ten different types of at least two characters, in the order they were met. |
| WindowsTables.TypesTextAt | src/CPlusPlusMangle.cpp:289-303 | The text of a list of types is that of each in turn, with the tables its predecessors leave. |
| WindowsTables.SlotsExactly | src/CPlusPlusMangle.cpp:45-79 | A type comes out as the digit of its slot if it is one of those first ten, as it is if it is one character long, and otherwise with back-references to the first ten names only. |
| WindowsTypes.ScalarReads | src/CPlusPlusMangle.cpp:229-272 | A scalar type has a code if and only if C++ has a name for it, and a reader with a table from codes to signedness and width takes the code for that very type. |
| WindowsTypes.SimpleReads | src/CPlusPlusMangle.cpp:81-113 | The same for the names of simple handles. |
| WindowsTypes.QualsTell | src/CPlusPlusMangle.cpp:115-190 | Two lists of modifiers come out with the same qualifiers if and only if they say the same of every pointer and of what is pointed to. |
| WindowsTypes.ShapeReadsAs | src/CPlusPlusMangle.cpp:192-272 | Exactly the types with a name can be mangled, and a reader takes the base for what it is, under the qualifiers. |
| WindowsTypes.TypesRoundTrip | src/CPlusPlusMangle.cpp:274-307 | From the mangled name of any signature a reader recovers name, namespaces, and of the result and every argument what type it is and how it is qualified. |
| WindowsTypes.SameNameExactly | src/CPlusPlusMangle.cpp:274-307 | Two signatures get the same mangled name if and only if they are the same C++ function: equal names, equal scalar types, and handles equal up to qualifiers that say the same. |
| WindowsTypes.MangledExactly | src/CPlusPlusMangle.cpp:274-307 | A signature can be mangled if and only if all its types have a name. |
| WindowsMethods.QualsState.HandleModifier | src/CPlusPlusMangle.cpp:127-161 | Each modifier extends the text as the declarative form says, with the pointer seen last kept in the state. |
| WindowsMethods.QualsState.Final | src/CPlusPlusMangle.cpp:162-180 | The finished text is the declarative one. |
| WindowsMethods.MangleQuals | src/CPlusPlusMangle.cpp:182-190 | The loop over the modifiers gives the text of the qualifiers. |
| WindowsMethods.PreviousDeclarations.CheckAndEnterType | src/CPlusPlusMangle.cpp:49-74 | Emits a digit for a known type, and enters a new one while there is room; one-letter types are never entered. |
| WindowsMethods.PreviousDeclarations.CheckAndEnterName | src/CPlusPlusMangle.cpp:76-79 | The same for names. |
| WindowsMethods.MangleScopes | src/CPlusPlusMangle.cpp:212-220 | The loops over enclosing scopes append both texts, from the innermost one on. |
| WindowsMethods.MangleInnerName | src/CPlusPlusMangle.cpp:192-227 | Both texts of a handle type, and the name table after it. |
| WindowsMethods.MangleType | src/CPlusPlusMangle.cpp:229-272 | Both texts of a type, and nothing exactly for types without a name. |
| WindowsMethods.EmitType | src/CPlusPlusMangle.cpp:289-295 | A type as emitted, and both tables after it. |
| WindowsMethods.EmitArgs | src/CPlusPlusMangle.cpp:291-303 | The loop over the arguments appends their types. |
| WindowsMethods.FunctionMangledName | src/CPlusPlusMangle.cpp:274-307 | The whole function returns the name that RoundTrip reads. |
| WindowsMethods.PrefixText | src/CPlusPlusMangle.cpp:277-287 | The text before the return type, with the function name and its namespaces entered. |
| ApplySplit.ApplySplitTo | src/ApplySplit.cpp:12-128 | The results in order and the map of alignments after them, or the failed assertion. |
| ApplySplit.BuildLoopNest | src/ScheduleFunctions.cpp:117-133 | The loop over the directives gives the nest the theorems are about, and stops exactly when a directive is refused. |
| SplitCode.SubstituteMeans | src/ScheduleFunctions.cpp:120-133 | Substituting a value into code runs as binding it does, unless the code binds a name of the value. |
| SplitCode.WrapMeans | src/ScheduleFunctions.cpp:120-133 | Code wrapped in substitutions, lets and predicates runs them first and then the code, or is skipped. |
| SplitCode.StepMeans | src/ScheduleFunctions.cpp:120-133 | What one directive emits captures nothing, whatever was emitted before. |
| SplitStep.SplitRuns | src/ApplySplit.cpp:18-90 | The value a split computes for the old loop under each tail strategy, and exactly when it skips an iteration. |
| SplitStep.FuseRuns | src/ApplySplit.cpp:92-120 | A fused loop computes quotient and remainder of its variable by the inner extent, which counts as one if it is not positive. |
| SplitStep.RenameRuns | src/ApplySplit.cpp:121-125 | A renamed loop computes the old variable. |
| SplitStep.StepReaches | src/ApplySplit.cpp:12-165 | Every iteration of the old loops has a preimage inside the new ones, whose bounds are the emitted ones. |
| SplitStep.StepRuns | src/ApplySplit.cpp:12-165 | Running the new loops at the preimage runs the old iteration. |
| SplitStep.StepInverts | src/ApplySplit.cpp:12-165 | A directive that is proved divisible or guarded runs only old iterations, each from one place. |
| SplitTheorem.EveryPointVisited | src/ScheduleFunctions.cpp:74-325 | For any list of directives and any tail strategies, every point of the original domain is written. |
| SplitTheorem.VisitedOnce | src/ScheduleFunctions.cpp:74-325 | If all splits are proved divisible or guarded, only points of the original domain are written, and each from one iteration only. |
| SplitTheorem.AlignmentsDivide | src/ApplySplit.cpp:18-120 | Every entry of dim_extent_alignment divides its extent, after any list of directives. |
| SplitTheorem.ShiftInwardsExactly | src/ApplySplit.cpp:72-90 | A shifted split never passes its old maximum, and stays inside the old range if and only if that range is at least as long as the factor. |
| SplitTheorem.RoundUpOnce | src/ApplySplit.cpp:82-90 | A rounded-up split writes only whole tiles, and nothing of them twice. |
| SplitTheorem.FuseExactly | src/ApplySplit.cpp:92-120 | Under the bounds emitted for a fused loop, every iteration computes an iteration of the two old loops if and only if not both extents are negative. |
| SplitTheorem.StepBounds | src/ApplySplit.cpp:130-165 | The bounds emitted after a directive are those of the new loops. |
| SplitTheorem.StepAlignment | src/ApplySplit.cpp:18-120 | Updating the map after a directive keeps every entry dividing its extent. |
| SplitKnown.RefusedExactly | src/ApplySplit.cpp:44-53 | A directive is refused if and only if it splits by a constant that is not positive, and the old extent is not proved a multiple of it. |
| SplitKnown.AcceptedExactly | src/ApplySplit.cpp:18-53 | A list of directives is accepted if and only if none of them does so, each under the alignments recorded before it. |
| SplitKnown.AlignedExactly | src/ApplySplit.cpp:18-120 | What is recorded after a directive, and nothing else changes: the inner dimension of a split is its factor long, the outer one has the quotient exactly if the factor is proved to divide, and a fused dimension the product exactly if both are known. |
| SplitTheorem.BuiltSound | src/ScheduleFunctions.cpp:74-325 | Names, bounds and alignments of the nest stay in order over any list of directives. |
| SplitTheorem.NestInverts | src/ScheduleFunctions.cpp:74-325 | In an exact nest the iteration can be computed back from the point it writes. |
| AlignLoadsSound.LaneForLane | src/AlignLoads.cpp:36-138 | The rewritten load holds, lane for lane, what the original one reads, for every constant stride, lane count and alignment, with the analyzer as written and as documented; the recursion ends. |
| AlignLoadsSound.FailsExactly | src/AlignLoads.cpp:36-138 | The assertions fail if and only if the covering dense load leaves a single lane over, a strided load has a negative offset, or a value does not fit a native vector. |
| AlignLoadsSound.AlignedExactly | src/HexagonAlignment.h:25-57 | A load of known alignment becomes aligned loads if and only if its offset is zero, or it is strided and the offset is smaller than the stride. |
| AlignLoadsSound.DocumentedAligns | src/AlignLoads.cpp:125-137 | If the analyzer called a load aligned only when its offset is zero, every load of known alignment would become aligned loads. |
| InliningProof.PerformInline | src/AutoScheduleUtils.cpp:157-205 | The loop ends, inlines no function twice, leaves no call of a function to inline, and keeps the value. |
| InliningProof.InlineMeans | src/Inline.cpp:98-134 | Inlining the calls of a function keeps the value, whatever the arguments. |
| InliningProof.RoundKeeps | src/AutoScheduleUtils.cpp:167-203 | A round inlines the last function and leaves only calls of earlier ones. |
| InliningProof.BodyMeans | src/Inline.cpp:109-127 | The qualified body in the lets of its arguments has the value of the call. |
| InliningProof.InlineKeepsSeparate | src/Inline.cpp:98-134 | Inlining makes no let name free. |
| InliningProof.InlineKeeps | src/Inline.cpp:98-134 | Inlining leaves no call of the function and brings only the calls and the qualified names of its body. |
| InliningProof.SubstituteMeans | src/Inline.cpp:117-123 | A simple argument that is substituted rather than bound has the same effect. |
| InliningProof.BindMeans | src/Inline.cpp:117-123 | The lets around the body bind each argument in the environment of the call. |
| InliningProof.SortDescending | src/AutoScheduleUtils.cpp:174-185 | The calls are put in the reverse of the realization order, none lost or doubled. |
| InliningProof.FirstToInline | src/AutoScheduleUtils.cpp:190-202 | The first call in the list that is to be inlined, or none if there is none. |
| InliningProof.FindAllCalls | src/AutoScheduleUtils.cpp:168-174 | Lists exactly the functions called. |
| InliningCse.CseIsGood | src/Inline.cpp:188-198 | The common subexpression elimination that the inliner runs keeps everything the loop relies on. |
| InliningCse.CseKeeps | src/Inline.cpp:188-198 | On an expression whose let names are not free, elimination keeps the value, the calls and their arities, and again leaves no let name free. |
| InliningCse.TreesAreDistinguishable | src/CSE.cpp:113-141 | An expression without shared objects whose let names are not free meets the condition of EliminateMeans, even if it binds one name to different values in different places. |
| InliningCse.PerformInlineWithCse | src/AutoScheduleUtils.cpp:157-205 | The loop with common subexpression elimination itself: it ends, leaves no call to inline, and keeps the value. |

## Findings

Properties one would expect that fail for the code as it is, each with an input and the exact condition. For control
around the produce node the condition is exact where that is one condition, and otherwise only a sufficient one is given.

* **A free let name confuses elimination** (`src/CSE.cpp:113-141`). Input: `f(y, let x = 2 in y)` with one shared object
  `y = g(x)`, where x is also free (`CseLets.CapturedNamesConfuse`). Objects and texts are looked up before the let scope,
  so each is taken for what it was met as first; meaning is preserved if and only if the input, taken that way, is its own
  let-free text (`CseExact.EliminateExactly`). No let name free and no object under two bindings that tell it apart is
  enough (`CseLets.EliminateMeans`), not necessary (`CseExact.FreeNameMayBeHarmless`).
* **A rebound let name captures a bound** (`src/Bounds.cpp:1235-1251`). Input: `let x = y in let x = 0 - x in x`
  (`BoundsMethods.ReboundIsUnsound`). The maximum is bound inside the minimum's scope. A bound of the body comes out wrong
  exactly where it tells the captured minimum from the true one (`BoundsTheorem.CapturedExactly`), and none of any body
  does if and only if the minimum does not depend on what the name of the maximum stood for
  (`BoundsTheorem.NeverCapturedExactly`).
* **A half-bounded divisor is returned as the interval of a remainder** (`src/Bounds.cpp:546-549`). Input: a divisor in
  `[5, inf)`. Right if and only if the divisor is bounded below, by a value that is not positive
  (`BoundsSound.HalfDivisorExactly`).
* **A half-bounded branch is returned as the interval of a select** (`src/Bounds.cpp:787-797`). Input: branches in
  `[5, inf)` and `[0, 1]`. Right if and only if the other branch is bounded on that side at least as tightly
  (`BoundsTheorem.HalfBranchExactly`).
* **The boxes pass stops on infinities** (`src/Bounds.cpp:2186-2192`, `src/Bounds.cpp:1979-1983`). An infinite bound is a
  handle, and arithmetic on a handle and a number is a user error (`src/Interval.cpp:114-117`,
  `src/IROperator.h:276-289`, `src/IROperator.cpp:438-443`). Inputs: a loop whose start or extent has no upper bound,
  without a known `loop_max`; a chain of lets on a variable that a condition trims (`BoxesLimits.TrimmedChainStops`). It
  stops if and only if the end of a loop is added up from an infinite bound, or an infinite bound is compared with a
  finite one for a trimmed let whose names a box uses (`BoxesLimits.StopsExactly`).
* **An infinity gets a name** (`src/Bounds.cpp:1844-1899`). Input: `let v = max(u, large); f(v) = ..` where nothing is
  known of u: both bounds get names because one is large, the box then looks finite, and the name of its end is bound to
  the variable pos_inf (`BoxesLimits.UnboundedLetIsCut`). The box covers the bounds of the value if and only if they are
  small, or both finite (`BoxesLimits.NamedLetExactly`).
* **Control around the produce node must be steady** (`src/AsyncProducers.cpp:115-131`). Input:
  `g(0) = 1; if (g(0)) { produce f; consume f }`. The producer copy has lost the store to g, so it skips its produce
  while the consumer waits (`AsyncLimits.UnsteadySpineDeadlocks`). A produce node under one condition, behind any stores,
  can leave the consumer waiting if and only if the condition holds after all the stores but did not at some moment
  before (`AsyncGuards.GuardDeadlocksExactly`). For any control, loading nothing the body writes is enough
  (`AsyncTheorem.ForkedNeverDeadlocks`).
* **Acquires and forks move over lets that read what changes** (`src/AsyncProducers.cpp:522-533`,
  `src/AsyncProducers.cpp:549-568`). Only names are compared, so for `let v = g(0) { acquire s; .. }` the value is read
  before the acquire in the one and after it in the other. The possible sequences stay if and only if the value reads
  nothing that changes (`AsyncExpand.LetOverAcquireExactly`, `AsyncExpand.LetOverForkExactly`).
* **The alignment analyzer never reports a misaligned load** (`src/HexagonAlignment.h:25-57`). It returns whether the
  alignment is known, although its comment and its caller take it for whether the load is aligned, so the branch of
  `src/AlignLoads.cpp:125-137` that realigns a dense load is never taken. Aligned loads come out if and only if the
  offset is zero, or the load is strided and the offset is smaller than the stride (`AlignLoadsSound.AlignedExactly`).
  With the analyzer as documented they always would (`AlignLoadsSound.DocumentedAligns`). The assertions of the rewriter
  fail exactly in the cases of `AlignLoadsSound.FailsExactly`.
* **Fusing two loops of negative extent** (`src/ApplySplit.cpp:92-120`). Input: extents -1 and -1: the fused loop runs
  once. The emitted code gives iterations of the two loops only, if and only if not both extents are negative
  (`SplitTheorem.FuseExactly`).
* **Shifting inwards can start before the old range** (`src/ApplySplit.cpp:72-90`). Input: extent 3, factor 8. It stays
  inside if and only if the extent is at least the factor (`SplitTheorem.ShiftInwardsExactly`).
* **Functions without bounds get links but no group** (`src/AutoSchedule.cpp:1315-1360`). The links stay inside the
  groups if and only if no such function takes part in the graph (`PartitionTheorem.UnboundedMustBeIsolated`).
* **The cache key of regions_required leaves the estimates out** (`src/AutoSchedule.cpp:152-185`). Input: f reads g at a
  parameter, and is asked for with one estimate of it and then with another: the second answer is that of the first
  call. It is the right one if and only if the two estimates are the same (`RegionsMethods.AskTwice`). A caller is safe
  when all calls have the same estimates (`RegionsMethods.DependenceAnalysis.RegionsRequired`), and all present callers
  are: they pass `costs.input_estimates` (`src/AutoSchedule.cpp:1394`, 1858, 1861, 2248, 2278, 3433 and 3460).

## Left out

Asynchronous producers:

- AsyncTheorem.ForkedRunIsSequential: speaks of one Realize node at a time, with control around the produce node that loads nothing the body writes, because of the finding above.
- AsyncMoves.ExpandIsBroad: an acquire may stay directly inside a let that another acquire was moved out of, as in the code, which does not visit the new let again.
- AsyncExpand.TracesAreTrace: the counts of semaphores are read from the starting store, so they must not load what the statement writes.
- Functions with several values or indices, loops that are not serial, nested asynchronous functions, storage-folding semaphores with their cloned acquires, Assert, Prefetch, Store and Allocate statements, InitializeSemaphores (semaphores are there from the start), and TightenProducerConsumerNodes. One Provide is one atomic step, and division by zero is zero.

Elimination and inlining:

- The Load and Store predicate case of GVN, statements, and types of expressions; a variable is an object by its name.
- InliningProof.PerformInline: the expression handed to elimination is a tree of distinct objects, so sharing between objects that one round makes and the next one reads is not modelled. An empty realization order, `.buffer` variables, Provide statements and functions of several values are left out.

Partitioner and regions:

- The cost model, tile sizes and schedules are parameters. Symbolic costs are integers or undefined as a whole. Sets are visited in some order that no result depends on, except which of several equally good candidates is chosen.
- RegionsTheorem.RegionsCover: speaks of regions before estimates are substituted and simplified; what a stage needs for given bounds is a parameter that covers what it reads, box conditions are left out, and bounds are integers.
- redundant_regions, overlap_regions and the regions_required for all stages of a function.

Bounds and boxes:

- BoundsTheorem.BoundsAreSound: casts, floats, shifts, bitwise operators, loads, calls, vectors, constant bounds and overflow of narrow types are not in the expressions.
- BoundsExact.BoundsAreExact: intervals are wider than the values where a variable of the scope is used twice, where a visitor gives up (`BoundsTight.GivesUp`), and for remainders and equalities, whose ends are covered one node at a time.
- BoxesTight.GuardNarrows: for a condition on variables that enclosing lets read, the trimmed lets are covered one at a time (`BoxesTight.DependentsExactly`, `BoxesTight.LetTrimmedExactly`).
- BoxesSound.BoxesAreSound: boxes of calls, buffer_crop, likely intrinsics and scalar boxes are left out; names bound by statements are distinct, so the renaming of variables and the preprocessing of solved conditions have nothing to do; the simplifier, the prover and the solver are contracts; an infinity that gets a name is not used in a box, because of the finding above.

Other:

- WindowsRoundTrip.RoundTrip: names are identifiers. Itanium mangling and the choice of a target are left out.
- SplitTheorem.EveryPointVisited: purified dimensions, likely marks, predicates of fused stages, the sorting of containers around the body, and 32-bit overflow are left out.
- AlignLoadsSound.LaneForLane: stores, the children of predicated loads, loads inside an index and 64-bit overflow of alignments are left out.
- The code generators, the other passes, and printing.
