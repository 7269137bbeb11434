# A modulo-scheduling compiler and its cycle-level machine

The repository maps loop kernels onto a coarse-grained reconfigurable array: a mesh of tiles, each with a function unit,
small register files and optionally a load/store unit, joined by registered one-hop links. This project models its three
decisive parts and proves what they claim about each other.

**The modulo-scheduling core.** A dataflow graph is mapped onto `rows x cols` tiles over the slots `[0, II)`.
`Mapping.dfy` says what a legal mapping is without reference to any algorithm, and `PlainLegality.dfy` what that comes to on
the mesh: which tiles, which network, how many steps each way, how far apart. `Verifier.dfy` proves the checker exact for
it; `Oracle.dfy` and `OracleSolve.dfy` prove the exhaustive search complete for it, resting on the removal of detours in
`Walks.dfy`; `RouteGraph.dfy` and `RouteSearch.dfy` prove the Dijkstra search optimal and complete; `Mapper.dfy` and
`MapperRun.dfy` prove the backtracking mapper sound, reversible and honest about exhaustion; `SearchBudget.dfy`,
`FairShares.dfy` and `MapperBudgets.dfy` bound what a search costs from both sides and say what budgets guarantee of a run;
`Recurrence.dfy`, `MII.dfy` and `ResourceBound.dfy` prove both lower bounds on the II exact and `StagedBound.dfy` says what
they mean for staged mappings; `AbsoluteTime.dfy` and `PeriodicLifetime.dfy` lift the modulo arguments to all iterations of
the loop.

**The golden machine and its schedule checker.** `Tile.dfy` to `GoldenRuns.dfy` give the cycle semantics of the array;
`FunctionUnit.dfy` holds the laws its results obey and what registers hold after a cycle, `FreshRuns.dfy` what a run from the
loaded array finds in memory.
`Shapes.dfy` and `LoopShapes.dfy` separate its structural skeleton (which values exist) from the values. `ScheduleTile.dfy`
to `ManifestCheck.dfy` prove that the checker follows the machine cycle by cycle and that its bounded look at a loop speaks
for every trip count. `Control*.dfy` prove the bit-packed control word a bijection with the controls that fit it.

**The ABI binder.** `Kernels.dfy` gives dataflow graphs a meaning over iterations, which `KernelSemantics.dfy` spells out
step by step; `KernelInvocation.dfy` is the check of what a kernel is invoked with; `KernelBinding.dfy` models the rewriting
and `KernelMeaning.dfy` and `KernelRuns.dfy` prove what it preserves; `KernelEscapes.dfy` and `KernelStores.dfy` say exactly
when, for kernels that read and for kernels that write; `KernelExamples.dfy` holds a kernel it breaks and one that shows
where the exact condition ends.

## What is assumed

The target description guarantees what its loader checks (`compiler/lib/Target/TargetModel.cpp`): one interconnect serves
both networks with a hop latency of at least 1; the tiles compatible with an operation are exactly those where it is
supported, and their number is its resource count; there is one function unit per tile and one load/store unit per tile
listed as having one; memory separations, result latencies and occupancies are positive. A graph is valid when node and
edge identifiers are unique, edges join nodes of the graph, each node agrees with its operation on class, occupancy and
timing, and producers of values say when they are ready. The caller's check of a complete mapping (stages, registers), where
there is one, is an arbitrary decision to accept, refuse or abort. Fields that are 32 bits wide are modelled as such where plans are built;
elapsed times while searching are unbounded.

## Where code and documentation disagree

- `compiler/docs/KERNEL_ABI_V0.md:22-24` promises that after the final iteration each reserved word holds its live-out.
  The binder only checks addresses that are constants (`compiler/lib/ABI/KernelABIBinder.cpp:27-48`). A kernel that loads
  from the address 1 + 0 is accepted and, starting from a cleared scratchpad, computes other values than its source from
  the second iteration on (`KernelExamples.ComputedAddressIsAccepted`). The exact condition can be read off the kernel
  (`KernelEscapes.KeptExactlyWhenStatic`): where stores have bound addresses, loads bound or computed ones and some
  live-out is computed, the promise holds for all operations, memories and iterations exactly when there are no live-outs
  or every address is bound. Where loads are bound and stores may go to computed addresses, it holds exactly when no such
  store is issued behind an output's (`KernelStores.KeptExactlyWhenOutputsLast`). Beyond such kernels a computed address may
  be harmless (`KernelExamples.LoadedResultIsKept`).
- `compiler/docs/MODULO_MAPPER_V0.md:36-38` says the II increases only once the search is fully exhausted, and that budgets
  never raise it. The code also moves on when this II's share of a budget is spent
  (`compiler/lib/Mapping/ModuloMapper.cpp:639-642`); `MapperExamples.ShareSpentMovesOn` is a run that does, leaving an II
  that has a legal mapping with half of the nodes placed. What budgets it takes to keep the rule can be computed before the
  call. With `T` tiles at most for a node, `E` edges and `c(0) = 0`, `c(n) = II * T * (1 + c(n - 1))`, a search at an II
  costs at most `c(nodes)` attempts and backtracks and `E * c(nodes)` route calls; one that is exhausted has made at least
  `II * F` attempts, `F` being the fewest tiles of any node. Budgets whose shares cover the first amount keep the rule
  (`MapperBudgets.AmpleRaisesOnlyExhausted`), and as many times the amount of the last II as there are IIs are such budgets
  (`MapperBudgets.RoundFiguresAreAmple`); attempts whose shares do not cover the second break it
  (`MapperBudgets.ExhaustionTakesBudget`). What lies between depends on how early candidates are refused, which the graph and
  the target's sizes do not tell; for a graph of one node the two amounts of attempts are the same and the condition is exact
  (`MapperBudgets.OneNodeRaisesExactly`).
- `compiler/docs/MII_ANALYZER.md:3,74` calls the MII a lower bound. Its recurrence half counts a producer's result latency,
  but transports start when the output is ready (`compiler/lib/Mapping/ModuloRouteSearch.cpp:123-126`), and the target loader
  relates the two in no way (`compiler/lib/Target/TargetModel.cpp:441-457`). `StagedBound.PromptExactly`: the analysis never
  counts more than a transport takes exactly when the latency is at most the ready offset plus one. Then the MII bounds every
  legal mapping with stages (`StagedBound.StagedRespectsMII`); `StagedBound.BoundExceeded` is an accumulator with latency 2
  and ready offset 0 that is staged legally at an II of 1, which the analysis rules out.
- The schedule checker refuses a route that selects a result the operation does not give
  (`tools/check_schedule.py:446-449,461-464`); the golden machine sends 0 instead. The theorems about the checker name this
  condition (`ScheduleTile.Strict`) in both directions; `ScheduleTile.ResultlessRouteIsRefused` is such a control.

## Model

| member | source | states |
|---|---|---|
| Verifier.Verify | compiler/lib/Mapping/ModuloMappingVerifier.cpp:276-435 | the report is empty exactly when the graph is valid, the names agree and the mapping is legal, where legality is stated declaratively: every node and edge listed once, every placement supported, every transport a gap-free walk that ends at its consumer in time, and no modulo resource claimed twice; an empty report also means legality in plain terms: predicate edges, and no others, travel and claim links on the predicate network, transports take at least the distance between their ends, and memory edges keep the separation of their dependence |
| Verifier.VerifyValueTransport | compiler/lib/Mapping/ModuloMappingVerifier.cpp:87-272 | one transport: reports nothing exactly for a legal plan over free, distinct links, which are then reserved for the edge; otherwise the table is untouched |
| Verifier.VerifyActions | compiler/lib/Mapping/ModuloMappingVerifier.cpp:131-246 | the action loop accepts exactly the routable action lists, and knows where and when the value ends up and which links it took |
| Verifier.LegalIsAccepted | compiler/lib/Mapping/ModuloMappingVerifier.cpp:303-435 | legality meets every single check the verifier performs, whatever order the checks run in |
| Verifier.AcceptedIsLegal | compiler/lib/Mapping/ModuloMappingVerifier.cpp:303-435 | the converse: all checks passing one after another, with claims entered in a table, amount to legality |
| PlainLegality.LegalIsPlain | compiler/lib/Mapping/ModuloMappingVerifier.cpp:41-43 | legal maps in plain terms: every node on a tile and in a slot it is allowed, every edge's plan and claimed links on the predicate network exactly for a predicate edge, its separation that of its dependence or at least what its producer and its way take |
| PlainLegality.SupportIsAllowance | compiler/lib/Target/TargetModel.cpp:815-827 | a placement is legal exactly for a slot below the II on a tile of the array that lists the operation itself or, where it lists none of its own, has it by default, and for memory operations is one with a load/store unit |
| PlainLegality.MatchesExactly | compiler/lib/Target/TargetDFGVerifier.cpp:271-291 | a node of a graph belongs to the target exactly when it agrees with its operation on class, occupancy and timing and some tile of the array can take it |
| PlainLegality.LinksLeadOneTile | compiler/lib/Mapping/ModuloResourceModel.cpp:48-66 | a link leads one row or column on in its direction, and is missing exactly on that border of the array |
| PlainLegality.NetSteps | compiler/lib/Mapping/ModuloMappingVerifier.cpp:131-246 | over any actions that can be followed, South steps less North steps are the rows gone and East steps less West steps the columns |
| PlainLegality.TakesItsDistance | compiler/lib/Mapping/ModuloMappingVerifier.cpp:131-246 | so they hold at least as many steps as the Manhattan distance, and take the hop latency for each |
| OracleSolve.Solve | compiler/lib/Mapping/ExactModuloOracle.cpp:225-249 | each status characterised: unsupported exactly beyond the size limits, invalid exactly for an invalid graph, Feasible returns a mapping the verifier accepts, and Infeasible means no mapping at all (any placements, transports of any length) is accepted at that II |
| OracleSolve.PlacementSearch.SearchPlacements | compiler/lib/Mapping/ExactModuloOracle.cpp:188-221 | failing restores placements and table and proves that no way of placing the remaining nodes leads to an accepted mapping |
| OracleSolve.PlacementSearch.TryPlacement | compiler/lib/Mapping/ExactModuloOracle.cpp:198-216 | one tile and slot: failing undoes it and proves that placement hopeless |
| Oracle.EdgeSearch.RealiseEdges | compiler/lib/Mapping/ExactModuloOracle.cpp:134-186 | failing restores transports and table and proves that the remaining edges cannot be realised over what is free |
| Oracle.EdgeSearch.RouteCandidates | compiler/lib/Mapping/ExactModuloOracle.cpp:41-132 | failing proves that no transport whatever of this edge, of any length, leads on to a complete mapping |
| Oracle.EdgeSearch.Visit | compiler/lib/Mapping/ExactModuloOracle.cpp:55-132 | one node of the depth-first enumeration over (tile, slot) states: failing refutes every detour-free continuation |
| Oracle.EdgeSearch.Finish | compiler/lib/Mapping/ExactModuloOracle.cpp:140-156 | a complete assignment of a consistent search is refused by the verifier only if graph and target carry different names |
| Walks.RemoveDetours | compiler/lib/Mapping/ExactModuloOracle.cpp:55-132 | the pumping argument behind completeness: any walk has one that visits no (tile, slot) state twice, ends in the same state no later, and drives only links the original drove |
| Oracle.MoveOnTrack | compiler/lib/Mapping/ExactModuloOracle.cpp:78-116 | every move of the enumeration keeps the slot it carries along equal to the issue slot advanced by the elapsed time, and the plan so far routable over its links |
| Realisability.RealiseMonotone | compiler/lib/Mapping/ExactModuloOracle.cpp:134-186 | what can be realised with some links taken can be realised with fewer taken |
| Realisability.LegalRealises | compiler/lib/Mapping/ExactModuloOracle.cpp:134-186 | a legal mapping realises its edges one after another in graph order |
| Realisability.LegalPlaces | compiler/lib/Mapping/ExactModuloOracle.cpp:188-221 | a legal mapping places its nodes one after another without meeting an occupied resource |
| RouteSearch.Search | compiler/lib/Mapping/ModuloRouteSearch.cpp:105-291 | Success returns a legal plan whose (elapsed, holds, hops) is lexicographically least among all free walks between different tiles: no free plan has the value there earlier, and none as early waits less; it is never shorter than the Manhattan distance; NoPath means none exists; BudgetExceeded only where the state or push limit is below the size of the state space; InternalError only where every free walk to the consumer takes at least 2^32 - 1 cycles and crossing all routing states may exceed 32 bits; on one tile the status is decided exactly |
| RouteSearch.RouteSearchImpl.Run | compiler/lib/Mapping/ModuloRouteSearch.cpp:105-187 | the same for the search object, including the exact outcome for a consumer on the producer's tile |
| RouteSearch.OptimalIsFastest | compiler/lib/Mapping/ModuloRouteSearch.cpp:53-67 | the least cost means the earliest arrival among all plans over free links, and the fewest waiting cycles among those as early |
| RouteSearch.RouteSearchImpl.Explore | compiler/lib/Mapping/ModuloRouteSearch.cpp:158-187 | the Dijkstra loop, with the bound on expansions and pushes and a bound on every label by the expansions made |
| RouteSearch.RouteSearchImpl.Expand | compiler/lib/Mapping/ModuloRouteSearch.cpp:177-183 | expanding one state keeps the search invariant |
| RouteSearch.RouteSearchImpl.ExpandLink | compiler/lib/Mapping/ModuloRouteSearch.cpp:331-364 | a hop is offered exactly over a free link that exists |
| RouteSearch.RouteSearchImpl.ExpandHold | compiler/lib/Mapping/ModuloRouteSearch.cpp:366-382 | a one-cycle wait on the spot |
| RouteSearch.RouteSearchImpl.RelaxTo | compiler/lib/Mapping/ModuloRouteSearch.cpp:318-329 | relaxation keeps the invariant and never exceeds the push limit |
| RouteSearch.RouteSearchImpl.Reconstruct | compiler/lib/Mapping/ModuloRouteSearch.cpp:406-470 | reading the predecessor chain yields a plan carrying the value to the goal at exactly the label's cost, unless the time exceeds 32 bits |
| RouteSearch.RouteSearchImpl.Rebuild | compiler/lib/Mapping/ModuloRouteSearch.cpp:420-470 | merging consecutive waits into one hold keeps the walk and its cost |
| RouteSearch.LabelIsWalk | compiler/lib/Mapping/ModuloRouteSearch.cpp:318-329 | every label is the cost of a free walk to its state |
| RouteSearch.LateFromHere | compiler/lib/Mapping/ModuloRouteSearch.cpp:331-382 | where the cheapest open state has reached the 32-bit limits, the goal is out of their reach |
| RouteSearch.LinkIds | compiler/lib/Mapping/ModuloMapper.cpp:223-241 | a plan that can be followed over distinct links never triggers the missing-link or self-conflict branch |
| RouteGraph.WalksCovered | compiler/lib/Mapping/ModuloRouteSearch.cpp:158-187 | every free walk is covered by a finalised label or an open state at least as cheap |
| RouteGraph.ExhaustedMeansNoPath | compiler/lib/Mapping/ModuloRouteSearch.cpp:158-187 | an empty queue proves that no free walk ends on the goal tile |
| RouteGraph.FirstGoalIsCheapest | compiler/lib/Mapping/ModuloRouteSearch.cpp:158-168 | the first goal state popped is as cheap as any free walk to the goal |
| RouteGraph.RelaxStep | compiler/lib/Mapping/ModuloRouteSearch.cpp:318-329 | storing a better label keeps labels grounded, finalised states settled and open states queued |
| RouteGraph.FinalizeStep | compiler/lib/Mapping/ModuloRouteSearch.cpp:158-163 | finalising the least open state keeps the invariant |
| RouteStates.StateRoundTrip | compiler/lib/Mapping/ModuloRouteSearch.cpp:293-306 | numbering (tile, slot) states and reading the number back is the identity |
| RouteStates.IdRoundTrip | compiler/lib/Mapping/ModuloRouteSearch.cpp:293-306 | and the other way round |
| Mapper.MappingSearchState.Search | compiler/lib/Mapping/ModuloMapper.cpp:409-459 | any result but Success leaves placements, dependences and reservations exactly as found; Success holds a legal mapping; the internal failure outcomes never occur, and a failed route search only where crossing all routing states may exceed 32 bits; budgets are never exceeded and depth stays within the node count; the cost is bounded from above by the tree of candidates, a share is reported spent only where it is smaller than that bound, exhaustion takes as many attempts as the fewest candidates of a node and a complete mapping one for each node; Exhausted means a dead end: some node was tried on every supporting tile in every slot, each time on top of what was realised before, and each try failed for a stated reason |
| Mapper.MappingSearchState.TryOne | compiler/lib/Mapping/ModuloMapper.cpp:424-456 | one turn of the candidate loop: counted, of bounded cost, undone unless it succeeds, and refused only where the placement cannot be made, an edge cannot be routed, or a dead end follows |
| Mapper.MappingSearchState.TryCandidate | compiler/lib/Mapping/ModuloMapper.cpp:307-336 | nothing is entered exactly where the footprint is taken or does not fit the II; otherwise what was entered can be taken back to the old state, and Exhausted names an unroutable edge |
| Mapper.MappingSearchState.RealizeEdge | compiler/lib/Mapping/ModuloMapper.cpp:243-305 | Success keeps the two invariants (realised edges are those with both ends placed; the table is the disjoint union of all claims); anything else changes nothing; Exhausted means no free route exists; each value edge costs one route search |
| Mapper.MappingSearchState.RealizeEdges | compiler/lib/Mapping/ModuloMapper.cpp:330-335 | realising the closed edges one after another |
| Mapper.MappingSearchState.UnrealizedEdges | compiler/lib/Mapping/ModuloMapper.cpp:211-221 | exactly the edges the new placement closes, without repeats |
| Mapper.MappingSearchState.Rollback | compiler/lib/Mapping/ModuloMapper.cpp:338-346 | undoing in reverse order restores the search state exactly |
| Mapper.MappingSearchState.Complete | compiler/lib/Mapping/ModuloMapper.cpp:367-407 | materialising and verifying a complete state never fails, so only the caller's check can refuse it, and without one it always succeeds |
| Mapper.MappingSearchState.SelectNode | compiler/lib/Mapping/ModuloMapper.cpp:116-158 | returns an unplaced node |
| Mapper.MappingSearchState.Candidates | compiler/lib/Mapping/ModuloMapper.cpp:160-209 | exactly all supporting tiles in all slots, so many as their product |
| MapperRun.Map | compiler/lib/Mapping/ModuloMapper.cpp:582-672 | a result is legal and lies within the II range asked for; the account lists every II tried with its fair shares, counters and outcome, each passed over either fully exhausted or with a share used up, and the status is what the account amounts to: a global budget failure only if some share was used up or the caller's check aborted for budget, a verification failure only by that check; nothing works below the starting II; an analysis failure is explained |
| MapperRun.AttemptII | compiler/lib/Mapping/ModuloMapper.cpp:631-642 | one II from an empty table, with the reason for each outcome and what it costs |
| FairShares.LimitWithin | compiler/lib/Mapping/ModuloMapper.cpp:462-472 | a share lies between what is used and the maximum, and is never empty while anything is left |
| FairShares.FairToEveryII | compiler/lib/Mapping/ModuloMapper.cpp:462-472 | with n IIs to go and 2^(n-1) units left every II starts with a unit, however greedy the earlier ones; with fewer units spending every share in full leaves the last II nothing |
| MapperBudgets.RunIsFair | compiler/lib/Mapping/ModuloMapper.cpp:620-641 | the counters of every run are such a spending: with 2^(n-1) units each of n IIs that is tried has a unit to spend |
| SearchBudget.TreeCostIs | compiler/lib/Mapping/ModuloMapper.cpp:409-459 | what a search costs at most: as many backtracks as attempts, and a route call for each edge and attempt |
| MapperBudgets.AmpleRaisesOnlyExhausted | compiler/lib/Mapping/ModuloMapper.cpp:620-661 | budgets that cover, share by share, the most the searches at the first k IIs can cost (a number computed from graph, target and II) make every one of them that is left behind a fully exhausted one, in every run |
| MapperBudgets.ExhaustionTakesBudget | compiler/lib/Mapping/ModuloMapper.cpp:620-661 | conversely, unless the attempts cover, share by share, the slots of the fewest tiles of any node, some II is left behind unexhausted; an II whose share is below that is never exhausted |
| MapperBudgets.OneNodeRaisesExactly | compiler/lib/Mapping/ModuloMapper.cpp:620-661 | for one node the bounds meet: the II is raised only after exhaustion exactly when the attempts cover the candidates |
| MapperBudgets.RoundFiguresAreAmple | compiler/lib/Mapping/ModuloMapper.cpp:462-472 | as many times the most the last II can cost as there are IIs is enough for all of them |
| MapperBudgets.AmpleDecides | compiler/lib/Mapping/ModuloMapper.cpp:582-670 | with such budgets, room for the route searches and no check of the caller's, every run maps the graph or has searched every II in range to exhaustion |
| MapperExamples.ShareSpentMovesOn | compiler/lib/Mapping/ModuloMapper.cpp:639-642 | a run with budget that raises the II after placing one of two nodes, although a legal mapping exists at that II |
| MapperRun.SharedLimits | compiler/lib/Mapping/ModuloMapper.cpp:624-630 | staying within an II's shares stays within the global budgets |
| Recurrence.Evaluate | compiler/lib/Analysis/MIIAnalyzer.cpp:98-128 | nodeCount in-place rounds report feasible exactly when integer issue times satisfying all constraints exist; otherwise the witness is a real cycle whose separation exceeds its distance times II |
| Recurrence.RunRound | compiler/lib/Analysis/MIIAnalyzer.cpp:106-119 | one round of relaxation with its predecessor links |
| Recurrence.BuildWitness | compiler/lib/Analysis/MIIAnalyzer.cpp:57-96 | walking nodeCount predecessors back always lands on a cycle, and the cycle is overfull |
| Recurrence.GoRound | compiler/lib/Analysis/MIIAnalyzer.cpp:71-96 | going round once collects that cycle with its total separation and distance |
| Recurrence.ReachesCircuit | compiler/lib/Analysis/MIIAnalyzer.cpp:57-69 | among nodeCount + 1 vertices met on the way back two coincide |
| Recurrence.CircuitGains | compiler/lib/Analysis/MIIAnalyzer.cpp:105-126 | a circuit of predecessor links gains, although links may have changed since they were used |
| Recurrence.CycleRefutes | compiler/lib/Analysis/MIIAnalyzer.cpp:98-128 | an overfull cycle rules out every schedule |
| Recurrence.FeasibleMonotone | compiler/lib/Analysis/MIIAnalyzer.cpp:361-368 | feasibility is monotone in the II |
| Recurrence.NeverOverfull | compiler/lib/Analysis/MIIAnalyzer.cpp:353-360 | once zero-distance cycles are excluded nothing is overfull at the total separation, so the upper-bound test cannot fail |
| Recurrence.Bisect | compiler/lib/Analysis/MIIAnalyzer.cpp:361-368 | binary search finds the threshold |
| Recurrence.RecurrenceBound | compiler/lib/Analysis/MIIAnalyzer.cpp:320-372 | the bound is exact: a schedule exists at an II exactly from the bound on, and the witness refutes one less; a zero-distance cycle refutes every II; the internal-error branch is never taken |
| MII.Analyze | compiler/lib/Analysis/MIIAnalyzer.cpp:140-379 | Success gives the exact resource and recurrence thresholds and their maximum, with a cycle of edges that enters no node twice and refutes one II less; issue times that leave every memory edge the target's separation for its dependence and every value edge its producer's result latency exist exactly from the recurrence threshold on; every failure status is explained, the zero-distance one by such a cycle |
| MII.SeparationCounted | compiler/lib/Analysis/MIIAnalyzer.cpp:273-296 | what is counted for an edge: the separation the target gives for RAW, WAR or WAW, or the result latency of the producer's operation in the target |
| MII.TimetabledExactly | compiler/lib/Analysis/MIIAnalyzer.cpp:268-319 | an II has a schedule by what is counted exactly when it has one in those terms |
| MII.ResourceMII | compiler/lib/Analysis/MIIAnalyzer.cpp:162-254 | exact: the resources suffice at an II exactly from the bound on; it only fails where no 32-bit II suffices |
| MII.CeilIsLeast | compiler/lib/Analysis/MIIAnalyzer.cpp:45-55 | the rounded-up quotient is the least II that offers enough |
| MII.NoCeilMeansTooMuch | compiler/lib/Analysis/MIIAnalyzer.cpp:45-55 | where the quotient does not fit 32 bits no 32-bit II offers enough |
| MII.LegalRespectsResourceMII | compiler/lib/Analysis/MIIAnalyzer.cpp:165-254 | every mapping the verifier accepts has an II of at least the resource bound |
| StagedBound.PromptExactly | compiler/lib/Analysis/MIIAnalyzer.cpp:268-307 | what the analysis counts for a value edge is never more than any legal transport of it takes, exactly when the producer's result latency is at most its ready offset plus one |
| StagedBound.MemoryMetExactly | compiler/lib/Analysis/MIIAnalyzer.cpp:273-280 | for a memory edge of a staged legal mapping the analysis asks exactly for the separation the mapping has to keep |
| StagedBound.StagedRespectsMII | compiler/lib/Schedule/StageAssignmentVerifier.cpp:114-136 | then the issue times of a legal mapping whose stages keep every required separation meet the analysis, and its II is at least the MII |
| StagedBound.BoundExceeded | compiler/lib/Target/TargetModel.cpp:441-457 | otherwise it need not be: a graph analysed to an MII of 2 or more with a legal, properly staged mapping at 1 |
| MII.BoundsCombine | compiler/lib/Analysis/MIIAnalyzer.cpp:374-376 | below the larger bound either no schedule exists or no mapping is legal |
| ResourceBound.LegalFits | compiler/lib/Mapping/ModuloMappingVerifier.cpp:348-404 | the pigeonhole: disjoint footprints of a legal mapping fit self-occupancy, FU, LSU and per-operation capacity |
| ResourceBound.ClaimsFill | compiler/lib/Mapping/ModuloMappingVerifier.cpp:348-404 | disjoint claims on some units over II slots number at most units times II |
| AbsoluteTime.LegalIsConflictFree | compiler/lib/Mapping/ModuloMappingVerifier.cpp:175-207 | for any stages and all iterations of the unrolled loop no FU, LSU or link is used twice in one absolute cycle by different (owner, iteration) pairs |
| AbsoluteTime.ModuloIsAbsolute | compiler/lib/Mapping/ModuloMappingVerifier.cpp:375-394 | modulo disjointness is equivalent to absolute disjointness, both ways |
| AbsoluteTime.IssueTimeExact | compiler/lib/Schedule/StagedMapping.cpp:30-41 | the guards refuse exactly the issue times that exceed 64 bits |
| PeriodicLifetime.ThreeShiftsSuffice | compiler/lib/RegisterAllocation/PeriodicLifetime.cpp:38-56 | three shifts decide, for lifetimes read after they are written, whether there is a cycle, among all integer iterations, in which one register would have to hold values of both, a value taking the register from its write, or the cycle after under the read-old policy, to its last read; all others count as colliding |
| PeriodicLifetime.SelfOverlapExact | compiler/lib/RegisterAllocation/PeriodicLifetime.cpp:26-36 | the duration test decides likewise whether there is a cycle in which the register would have to hold the values of two iterations |
| Resources.BuildResourceModel | compiler/lib/Mapping/ModuloResourceModel.cpp:112-161 | the numbering enumerates exactly the FU, LSU and link slots of the target, each once, and the index inverts it |
| Resources.ResourceModel.OperationFootprint | compiler/lib/Mapping/ModuloResourceModel.cpp:223-245 | defined exactly for a supported operation that fits the II, and then the operation's footprint |
| Resources.FootprintDistinct | compiler/lib/Mapping/ModuloResourceModel.cpp:223-245 | an operation overlaps itself exactly when its occupancy exceeds the II |
| Reservation.ReservationTable.CanReserve | compiler/lib/Mapping/ResourceReservation.cpp:24-35 | exactly for distinct, known, free resources |
| Reservation.ReservationTable.Reserve | compiler/lib/Mapping/ResourceReservation.cpp:37-44 | all or nothing, with the whole new table |
| Reservation.ReservationTable.TryReserve | compiler/lib/Mapping/ResourceReservation.cpp:46-52 | the same, handing back what is needed to undo it |
| Reservation.ReservationTable.Release | compiler/lib/Mapping/ResourceReservation.cpp:54-62 | frees exactly what the owner holds; a mismatch changes nothing |
| Reservation.ReservationTable.Undo | compiler/lib/Mapping/ResourceReservation.cpp:64-66 | gives a reservation back |
| Reservation.UndoRestores | compiler/lib/Mapping/ResourceReservation.cpp:37-66 | undoing a reservation restores the table exactly |
| Builder.ModuloMappingBuilder.Place | compiler/lib/Mapping/ModuloMapping.cpp:51-59 | accepts exactly an expected node not placed yet in an in-range slot |
| Builder.ModuloMappingBuilder.SetTransport | compiler/lib/Mapping/ModuloMapping.cpp:61-98 | accepts exactly a fitting plan of an expected value edge not realised yet |
| Builder.ModuloMappingBuilder.SetMemorySeparation | compiler/lib/Mapping/ModuloMapping.cpp:100-113 | accepts exactly an expected memory edge not realised yet |
| Builder.ModuloMappingBuilder.Finish | compiler/lib/Mapping/ModuloMapping.cpp:115-125 | yields the sorted mapping exactly when nothing is missing |
| Builder.BuildInIdOrder | compiler/lib/Mapping/ModuloMapper.cpp:348-365 | any complete legal pair of maps can be entered and finished, and the mapping lists exactly these maps |
| Builder.BuildInGraphOrder | compiler/lib/Mapping/ExactModuloOracle.cpp:140-156 | the same in graph order |
| Builder.LegalIsBuildable | compiler/lib/Mapping/ModuloMapping.cpp:61-98 | legal maps pass the builder's own checks |
| Mesh.AdvanceCompose | compiler/lib/Mapping/ModuloResourceModel.cpp:14-27 | advancing twice is advancing by the sum |
| Mesh.NeighborIsSymmetric | compiler/lib/Mapping/ModuloResourceModel.cpp:34-68 | every link leads to another tile of the array and can be driven back |
| GoldenTile.StepTile | model/golden_model.py:583-704 | a tile's cycle runs exactly where it is structurally legal and its address in range, and has exactly the declared effects |
| GoldenTile.ReadOperands | model/golden_model.py:615-621 | operands are read exactly where every selected source is there |
| GoldenTile.SwitchBox | model/golden_model.py:655-671 | a switch box drives exactly its enabled sides, failing on a missing source or NONE |
| GoldenTile.ExecuteLsu | model/golden_model.py:706-738 | a request is made exactly by a permitted operation with readable sources and an address in range |
| GoldenTile.WritePorts | model/golden_model.py:626-653 | both write ports of a register file, failing exactly on a missing result or a collision |
| Tile.FuOutputs | model/golden_model.py:1108-1152 | whether there are data and predicate results depends on the operation alone |
| FunctionUnit.AddCountsUp | model/golden_model.py:1118-1119 | adding 0 changes nothing and adding one more gives the next word, 2^32 wrapping to 0 |
| FunctionUnit.AddUndoesSub | model/golden_model.py:1118-1121 | subtracting and adding a word back |
| FunctionUnit.MulAddsRepeatedly | model/golden_model.py:1122-1123 | multiplying by 0 gives 0, by one more adds once more |
| FunctionUnit.LogicIsBitwise | model/golden_model.py:1124-1129 | every bit of AND, OR and XOR from that bit of the operands, bits read by halving |
| FunctionUnit.BitsDecide | model/golden_model.py:1124-1129 | words with equal bits are equal, so the bits say all |
| FunctionUnit.LeftShiftDoubles | model/golden_model.py:1130-1131 | shifting by 0 changes nothing, by one more adds the result to itself, and amounts count modulo 32 |
| FunctionUnit.RightShiftHalves | model/golden_model.py:1132-1133 | shifting by 0 changes nothing, by one more halves the result, and amounts count modulo 32 |
| FunctionUnit.SelectChooses | model/golden_model.py:1134-1135 | the first operand exactly under a true predicate |
| FunctionUnit.ComparisonsAgree | model/golden_model.py:1136-1143 | equality, its negation and the two orders, one in terms of the others |
| FunctionUnit.PredicateTables | model/golden_model.py:1144-1151 | the truth tables of the predicate operations |
| FunctionUnit.LegalCycleWrites | model/golden_model.py:583-704 | after a legal cycle every register holds what its write port selects, the first port the operation's result, and is valid then; registers not written are kept |
| FunctionUnit.WritesAreHazards | model/golden_model.py:626-653 | the registers a control writes are exactly those its enabled write ports name |
| FunctionUnit.OnlyReadRegistersMatter | model/golden_model.py:615-704 | a tile's cycle depends only on the registers its control reads |
| FunctionUnit.IdleTile | model/golden_model.py:583-704 | the default control runs anywhere and does nothing |
| FunctionUnit.MissingResult | model/golden_model.py:655-671 | a route that selects a result the operation does not give sends 0 or false |
| GoldenArray.MultiTileGolden.Step | model/golden_model.py:896-943 | one cycle of the array runs exactly where it is structurally and memory legal, and the new state is the declared one: registers, link inputs, pending loads, scratchpad, cycle; in every tile each register written holds the operation's result or the source its port selects, all others are as before |
| GoldenArray.Resolve | model/golden_model.py:931-975 | memory first, then registers and links, from the tiles' effects |
| GoldenArray.Conflicts | model/golden_model.py:945-961 | conflicts are found by grouping requests by address exactly where two requests are incompatible |
| GoldenArray.GroupsDecide | model/golden_model.py:951-961 | a group clashes exactly when it has a store and somebody else |
| GoldenArray.IssueLoads | model/golden_model.py:963-970 | responses are scheduled exactly unless a tile would get two in one cycle |
| GoldenArray.CommitStores | model/golden_model.py:972-975 | the scratchpad after the cycle |
| GoldenArray.OrderIrrelevant | model/golden_model.py:945-975 | serving the accepted requests in any port order gives the same memory |
| GoldenArray.Deliver | model/golden_model.py:997-1024 | each output arrives at the facing input of its neighbour, and nothing else does |
| GoldenRuns.Run | model/golden_model.py:977-995 | a run stops at the first illegal cycle, structural or memory, and otherwise ends in the state of the iterated step |
| GoldenRuns.ExecuteConcat | model/golden_model.py:977-995 | runs compose |
| GoldenRuns.MemoryHoldsLast | model/golden_model.py:945-975 | over whole runs a word holds what was stored there last, or its initial value |
| GoldenRuns.LoadReturnsLast | model/golden_model.py:896-975 | a response arrives at cycle c exactly if a load was issued at c minus the latency, with the word stored last before it was issued |
| FreshRuns.PreloadUntilStored | model/golden_model.py:1164-1175 | in every run from the loaded array a word nobody has stored to is the preloaded one, or zero |
| FreshRuns.StoreIsKept | model/golden_model.py:945-975 | and from the cycle after a store on it is the stored one until the next |
| FreshRuns.NothingAtFirst | model/golden_model.py:866-886 | at first no register is valid, nothing is under way and constants not given are zero |
| FreshRuns.UnitsAnywhere | model/golden_model.py:875-883 | any tiles of the array may have load/store units, and only such |
| FreshRuns.ConstantsStay | model/golden_model.py:896-943 | constants stay what they were loaded with |
| GoldenRuns.PendingIsOutstanding | model/golden_model.py:945-975 | what is pending is exactly what was issued within the last latency cycles |
| Shapes.ShapeDecides | model/golden_model.py:583-704 | structural legality of a cycle is decided by the shape alone: valid bits, arrivals and waiting responses, not values |
| Shapes.ShapeEvolves | model/golden_model.py:896-975 | after a legal cycle the shape is a function of the shape before and the controls |
| LoopShapes.RunFollowsShape | model/golden_model.py:977-995 | a run fails structurally only where its shape fails, and follows it otherwise |
| LoopShapes.KernelForever | tools/check_schedule.py:541-555 | a kernel pass that restores the shape can be repeated for ever |
| LoopShapes.WindowSpeaksForAll | tools/check_schedule.py:541-555 | a legal window whose last pass restored the shape makes every longer loop structurally legal |
| LoopShapes.WaitingOverRun | tools/check_schedule.py:512-519 | which responses are outstanding after any program |
| LoopShapes.FixedPointReached | tools/check_schedule.py:206-207 | after the kernel has run for a load latency one more pass never changes the shape |
| Programs.ManifestExecutionSteps | model/golden_model.py:139-173 | the control address of every cycle: its own number in the prologue and where there is no loop, the kernel's words round and round for the trip count, then the words behind the kernel |
| Programs.CheckCycles | tools/check_schedule.py:195-220 | the cycles checked, numbered from zero: all of them, or the same addresses with as many kernel passes as it takes, at least three, for all but two of them to outlast the hop and the load latency, and never more than the trip count |
| Programs.LoopGoesThrough | tools/check_schedule.py:212-219 | the addresses of a loop in closed form, for any number of passes |
| Programs.FetchesByAddress | model/golden_model.py:977-995 | every tile fetches the control its memory holds at the cycle's address, if it holds one |
| Programs.FetchLoop | tools/check_schedule.py:208-220 | fetching a loop's addresses is looping over what its phases fetch |
| ScheduleTile.CheckTile | tools/check_schedule.py:353-495 | for a state known in full, no diagnostic exactly where the golden tile runs and routes only results the operation gives; the effects then agree with the golden tile's |
| ScheduleTile.ResultlessRouteIsRefused | tools/check_schedule.py:443-449 | a control the golden tile runs, sending 0, and the check refuses |
| ScheduleTile.CheckRegisters | tools/check_schedule.py:356-374 | collisions, hazards and uninitialised reads, exactly |
| ScheduleTile.CheckOperands | tools/check_schedule.py:376-419 | operands as the golden tile reads them |
| ScheduleTile.CheckWrites | tools/check_schedule.py:421-436 | writes as the golden tile makes them |
| ScheduleTile.CheckBoth | tools/check_schedule.py:438-466 | routes as the golden tile drives them |
| ScheduleTile.CheckLsu | tools/check_schedule.py:468-493 | memory requests as the golden tile makes them |
| ScheduleCheck.CheckTiles | tools/check_schedule.py:336-495 | all tiles of a cycle |
| ScheduleCycle.CheckCycle | tools/check_schedule.py:336-539 | a cycle is clean exactly where the golden array steps and the controls are strict, and then the checker again knows the whole golden state |
| ScheduleCycle.ConflictingAddresses | tools/check_schedule.py:497-510 | exactly the conflicts of the golden memory |
| ScheduleCycle.IssueChecked | tools/check_schedule.py:512-519 | pending loads as in the golden memory |
| ScheduleCycle.StoreChecked | tools/check_schedule.py:521-523 | the scratchpad as in the golden memory |
| ScheduleCycle.EmitLink | tools/check_schedule.py:287-309 | a link conflict is never reported: a mesh input has one driver |
| ScheduleCycle.EmitLinks | tools/check_schedule.py:524-539 | arrivals as on the golden links |
| ScheduleManifest.SnapshotIsShape | tools/check_schedule.py:316-334 | two snapshots are equal exactly when the shapes are |
| ScheduleManifest.InitialChecked | tools/check_schedule.py:262-285 | the checker starts from the golden initial state |
| ScheduleManifest.CheckWindow | tools/check_schedule.py:336-546 | the cycle loop is clean exactly where the golden machine runs through with strict controls; its states are the golden states before every cycle; one snapshot per kernel pass |
| ManifestCheck.CheckManifest | tools/check_schedule.py:223-557 | an empty report means the golden machine runs through the checked cycles, checker and machine agreeing before every cycle, and that neither the given trip count nor any number of passes from the window on, nor any smaller number that spans a load latency, meets a structural error; conversely a clean window gives an empty report |
| ManifestCheck.WindowCoversLoop | tools/check_schedule.py:541-555 | a clean, settled window rules out structural errors for every longer trip count |
| ManifestCheck.WindowCoversShorter | tools/check_schedule.py:541-555 | a clean window also rules them out for shorter trip counts whose kernel passes span a load latency |
| ManifestCheck.WindowSettles | tools/check_schedule.py:206-207 | the window chosen is long enough: its last pass always restores the shape, so the fixed-point diagnostic never adds anything |
| ManifestCheck.WindowLongEnough | tools/check_schedule.py:206-207 | before the last pass the window has run for a load latency |
| ManifestCheck.SnapshotsCompareShapes | tools/check_schedule.py:548-555 | comparing the last two snapshots compares the machine's shapes |
| ControlImages.DecodeEncoded | model/golden_model.py:314-553 | decoding an encoded control gives it back exactly when its addresses fit their fields, and otherwise with the addresses cut |
| ControlImages.EncodeDecoded | model/golden_model.py:314-553 | encoding what an image decodes to gives back the image |
| ControlImages.EncodeControlChunks | model/golden_model.py:460-553 | inserting field by field at running positions writes the word of the fields |
| ControlImages.DecodeControlChunks | model/golden_model.py:314-457 | extracting field by field reads it, refusing padding, unknown names and wrong chunk counts |
| ControlImages.ControlRest | model/golden_model.py:314-457 | what lies above all fields is the padding |
| ControlImages.JoinSplit | model/golden_model.py:548-553 | splitting into 32-bit chunks and joining |
| ControlImages.SplitJoin | model/golden_model.py:314-330 | joining chunks and splitting |
| ControlCodec.WordBack | model/golden_model.py:314-553 | the word of a control reads back as the control |
| ControlCodec.WordAgain | model/golden_model.py:314-553 | a word that reads as a control is the word of that control |
| ControlNames.OpFaithful | model/golden_model.py:21-99 | the operation table is one to one within its width |
| ControlNames.DataRouteFaithful | model/golden_model.py:21-99 | the route source table likewise |
| ControlNames.OperationsInOrder | model/golden_model.py:21-41 | data operations are numbered from 0, comparisons from 16 and predicate operations from 32, without gaps, and there are no others |
| ControlNames.OperandsInOrder | model/golden_model.py:44-67 | operand sources in order: registers, ports, then the rest |
| ControlNames.RoutesInOrder | model/golden_model.py:69-96 | route sources in order: none, ports, the operation's result, registers, then the rest |
| ControlNames.MemoryInOrder | model/golden_model.py:98-99 | the four memory operations in order |
| BitFields.ExtractHigh | model/golden_model.py:184-185 | reading a field at a position |
| BitFields.InsertStep | model/golden_model.py:188-190 | placing a field above what is there already |
| KernelBinding.Bind | compiler/lib/ABI/KernelABIBinder.cpp:110-259 | every status is characterised: exactly for a bad source, a bad invocation and too many live-outs, and with identifiers to spare exactly for all others (preload or bound address in the output region, wrong live-out type, failed verification, success); Success returns a specialisation of the source, in which the constant of every input holds the bits the invocation gives for it |
| KernelInvocation.ValidateInvocation | compiler/lib/ABI/KernelInvocation.cpp:40-82 | accepts exactly an invocation with a trip count that gives every input one value of its type, of the target's width or a single bit, and preloads words within the memory, no address with two different words |
| KernelInvocation.ScalarsAreGiven | compiler/lib/ABI/KernelABIBinder.cpp:168-175 | for a valid invocation the value found for the i-th listed input is the i-th listed value, and every input is listed |
| KernelInvocation.NamesUnique | compiler/lib/ABI/KernelABIBinder.cpp:123-129 | accepts exactly sources whose inputs have different names |
| KernelInvocation.PreloadOutside | compiler/lib/ABI/KernelABIBinder.cpp:145-153 | accepts exactly preloads below the output region, where there is one |
| KernelBinding.BuildBound | compiler/lib/ABI/KernelABIBinder.cpp:154-241 | what the builder makes is a specialisation of the source |
| KernelBinding.RewriteKernel | compiler/lib/ABI/KernelABIBinder.cpp:154-207 | the kernel with its inputs specialised |
| KernelBinding.SpecialiseInputs | compiler/lib/ABI/KernelABIBinder.cpp:164-176 | each input gets its own fresh constant holding the invocation's value; existing constants stay |
| KernelBinding.RewriteEdges | compiler/lib/ABI/KernelABIBinder.cpp:178-198 | every edge is kept, its boundary values rewritten so that none of them is an input any more |
| KernelBinding.RewriteBindings | compiler/lib/ABI/KernelABIBinder.cpp:199-207 | every operand binding is kept or rewritten |
| KernelBinding.AddOutputs | compiler/lib/ABI/KernelABIBinder.cpp:213-241 | live-outs in ID order get consecutive words, or the first wrong type is reported |
| KernelBinding.AddOutput | compiler/lib/ABI/KernelABIBinder.cpp:222-240 | a store of the live-out's source to its address, ordered after itself, disturbing nothing |
| KernelBinding.NextId | compiler/lib/ABI/KernelABIBinder.cpp:50-66 | one more than every identifier in use, or none where 32 bits are used up |
| KernelBinding.DfgBuilder.ImportEdge | compiler/lib/IR/DFGBuilder.cpp:35-106 | what the builder accepts and what it then contains |
| KernelMeaning.MeaningPreserved | compiler/lib/ABI/KernelABIBinder.cpp:154-242 | for any operations, any number of iterations and any fair order of nodes: every original node has the same value in every iteration, recurrence boundaries included, and after the last iteration each word of the output region holds its live-out |
| KernelMeaning.IterationAgrees | compiler/lib/ABI/KernelABIBinder.cpp:154-242 | the same within one iteration |
| KernelMeaning.SameOperand | compiler/lib/ABI/KernelABIBinder.cpp:178-207 | each operand reads the same value in the bound graph as in the source under the invocation |
| KernelMeaning.StoreFires | compiler/lib/ABI/KernelABIBinder.cpp:213-241 | an output's store writes the live-out's present value into its word |
| KernelSemantics.StoreSets | compiler/docs/GENERIC_DFG_IR.md:42-43 | a store sets the word at its address and nothing else, unless its predicate is false or there is no such word |
| KernelSemantics.LoadGives | compiler/docs/GENERIC_DFG_IR.md:42-43 | a load's value is the word at its address, 0 beyond the memory, and changes no memory |
| KernelSemantics.FedOperand | compiler/docs/GENERIC_DFG_IR.md:53-66 | an operand fed by an edge has the producer's value of as many iterations ago as the edge's distance, and before those the boundary value offered for the iteration |
| KernelSemantics.FoundForIteration | compiler/docs/GENERIC_DFG_IR.md:63-64 | a boundary value is found exactly for an iteration one is offered for |
| KernelSemantics.CompleteExactly | compiler/lib/IR/DFGVerifier.cpp:655-704 | a loop-carried edge passes exactly if each offset below its distance has one known value and no other offset has any |
| KernelRuns.StaticRunAvoids | compiler/lib/ABI/KernelABIBinder.cpp:27-48 | where all addresses are constants the binder's check keeps every run out of the output region |
| KernelRuns.StaticMeaningPreserved | compiler/lib/ABI/KernelABIBinder.cpp:27-48 | so such kernels mean the same, without any assumption about the run |
| KernelEscapes.KeptExactlyWhenStatic | compiler/lib/ABI/KernelABIBinder.cpp:27-48 | for kernels whose stores have bound and whose loads bound or computed addresses, with a computed live-out: values and outputs are kept for all operations, memories and iterations exactly when there are no live-outs or every address is bound |
| KernelEscapes.ComputedLoadEscapes | compiler/lib/ABI/KernelABIBinder.cpp:27-48 | any load with a computed address makes some run of the bound kernel differ from its source |
| KernelStores.KeptExactlyWhenOutputsLast | compiler/lib/ABI/KernelABIBinder.cpp:213-241 | for kernels with bound loads, whose stores have bound addresses or computed ones and words that are no output's address: values and outputs are kept for all operations, memories and iterations exactly when no store with a computed address is issued behind an output's |
| KernelStores.ComputedStoreEscapes | compiler/lib/ABI/KernelABIBinder.cpp:213-241 | a store with a computed address behind an output's overwrites it under some operations |
| KernelExamples.ComputedAddressIsAccepted | compiler/lib/ABI/KernelABIBinder.cpp:110-259 | the binder accepts a kernel that loads from 1 + 0, and what it returns computes other values than its source on a cleared scratchpad |
| KernelExamples.ComputedAddressEscapes | compiler/lib/ABI/KernelABIBinder.cpp:213-241 | the values of both runs, for whatever bound graph specialises that kernel |
| KernelExamples.LoadedResultIsKept | compiler/lib/ABI/KernelABIBinder.cpp:27-48 | a kernel with a computed address that is kept whatever its operations compute: its one live-out is the word loaded |

## Left out

- Diagnostic texts, JSON, files, hashing and command lines: reports are sequences of codes, and only their emptiness or the
  resulting status is claimed, not which of several codes comes first nor the removal of duplicates.
- Verifier.VerifyValueTransport: the source's time domain throws for a producer slot outside `[0, II)`, which has been
  reported by then; the model advances any slot. The 64-bit wrap-around of elapsed times is not modelled.
- RouteSearch.Search: the resource model is taken to belong to the very target passed in, where the source compares names; the
  all-ones cost marking an unreached state is an absent cost; which of InvalidInput's diagnostics is given is not stated.
- RouteSearch.LabelIsWalk: the order among equally cheap entries is left open, as the source's tie-break by state number
  changes neither cost nor legality.
- Mapper.MappingSearchState.SelectNode: any unplaced node; candidates are taken in any order. The heuristics (locality, affinity,
  candidate scores) and the statistics they feed are not modelled, since no claim depends on them.
- MapperBudgets.ExhaustionTakesBudget: counts the candidates of one node only, as those of the next depend on which were refused;
  between this bound and that of MapperBudgets.AmpleRaisesOnlyExhausted the candidate order, left open here, decides.
- StagedBound.StagedRespectsMII: one way for a single mapping, as a slower one may lie above the bound all the same; the exact
  condition is that of StagedBound.PromptExactly.
- MapperRun.Map: no claim that a mapping is found whenever one exists, as each edge commits to one cheapest route; II attempts
  and the limit reached are not recorded in the statistics.
- MII.Analyze: the distinction the source draws among invalid graphs (no compatible resource against invalid) and the 64-bit
  overflow of demand sums are not modelled; InternalError is claimed only to mean too much demand or separation for 32 bits.
- AbsoluteTime.IssueTimeExact: stages are any numbers; the stage scheduler that chooses them is not part of this model.
- Target graph verification: the type, provider and adjacency checks of values are not modelled, as mapping does not read them.
- GoldenArray.MultiTileGolden.Step: the tile objects are values inside the array object, and a cycle that raises leaves the model
  unchanged where the Python model may have written some registers. Control addresses are taken to lie within the depths;
  the Python model raises an index error otherwise. Trace records and the loop phase, iteration and slot of a step are omitted.
- ManifestCheck.CheckManifest: manifest validation, the scan of raw manifests for doubled links
  (`tools/check_schedule.py:150-192`) and control decoding errors come before the model starts. For a load latency of 0 a
  loop may be reported unproven although its window is clean. Address values in iterations beyond the window are not covered:
  memory errors there remain possible, exactly as in the source.
- ControlImages.EncodeControlChunks: hexadecimal text is read as numbers, and a target's widths are taken to add up to its raw
  width, with one chunk for every 32 bits of its physical width.
- KernelBinding.Bind: the independent verification that follows is an arbitrary decision beyond the check of labels; where
  32-bit identifiers run out, binding may fail or not. Value types of operands, source locations and the invocation's text form are
  omitted, loops over unordered collections run in any order, constants are words, and 32-bit identifiers wrap as in the
  source.
- KernelMeaning.MeaningPreserved: one way for a single run, as a run may touch the output region without harm; the exact
  condition is KernelEscapes.KeptExactlyWhenStatic. Operations compute any function of their operands.
- KernelEscapes.KeptExactlyWhenStatic: the converse quantifies over all contents of the scratchpad, the output region
  included, and does not cover kernels that read through addresses from memory or export only loaded words.
- KernelStores.KeptExactlyWhenOutputsLast: does not cover kernels that both load and store through computed addresses, nor stores
  of computed words, which may be the very word the output holds.
- The stage scheduler, register allocator, schedule materialiser, target lowering, testbench generation and every script: not
  part of this model.
