// The backtracking mapper: whatever it completes is legal, and every retreat restores the search state.

module Mapper {
  import opened Wrappers
  import opened Mesh
  import opened Target
  import opened Resources
  import opened Reservation
  import opened Ordering
  import opened Mapping
  import opened Ledger
  import opened RouteGraph
  import opened ResourceBound
  import opened SearchBudget
  import RouteSearch
  import RouteStates
  import ModuloArithmetic
  import Verifier
  import Builder

  // What the caller's check of a complete mapping may decide.
  datatype AbortReason = BudgetReason | VerificationReason | OtherReason
  datatype CheckDecision = Accept | Reject | Abort(reason: AbortReason)

  // The edges with both ends placed.
  ghost function ClosedEdges(dfg: TargetDFG, placed: set<nat>): set<nat> {
    set i | 0 <= i < |dfg.edges| && dfg.edges[i].src in placed && dfg.edges[i].dst in placed :: dfg.edges[i].id
  }

  /** What one candidate entered, in order. */
  datatype CandidateDelta = CandidateDelta(node: nat, nodeReservation: Delta, edges: seq<nat>, edgeReservations: seq<Delta>)

  // The table after giving reservations back, last first.
  function Undone(owners: seq<Option<Owner>>, deltas: seq<Delta>): seq<Option<Owner>>
    decreases |deltas|
  {
    if deltas == [] then owners
    else Undone(Assign(owners, deltas[|deltas| - 1].resources, None), deltas[..|deltas| - 1])
  }

  // Each reservation is still held when its turn to be given back comes.
  ghost predicate AllHeld(owners: seq<Option<Owner>>, deltas: seq<Delta>)
    decreases |deltas|
  {
    deltas == [] ||
    (var last := deltas[|deltas| - 1];
     && (forall i :: 0 <= i < |last.resources| ==>
           last.resources[i] < |owners| && owners[last.resources[i]] == Some(last.owner))
     && AllHeld(Assign(owners, last.resources, None), deltas[..|deltas| - 1]))
  }

  lemma UndoneMore(owners: seq<Option<Owner>>, deltas: seq<Delta>, delta: Delta)
    requires Reservable(owners, delta.resources) && AllHeld(owners, deltas)
    ensures var owners' := Assign(owners, delta.resources, Some(delta.owner));
      AllHeld(owners', deltas + [delta]) && Undone(owners', deltas + [delta]) == Undone(owners, deltas)
  {
    UndoRestores(owners, delta.resources, delta.owner);
    assert (deltas + [delta])[..|deltas|] == deltas;
  }

  // The search state at some point.
  datatype Snapshot = Snapshot(placements: map<nat, NodePlacement>, dependences: map<nat, MappedDependence>,
                               owners: seq<Option<Owner>>)

  // Taking the candidate back turns `now` into `before`.
  ghost predicate LeadsBack(delta: CandidateDelta, now: Snapshot, before: Snapshot) {
    && delta.node !in before.placements && now.placements - {delta.node} == before.placements
    && now.dependences - Set(delta.edges) == before.dependences
    && AllHeld(now.owners, [delta.nodeReservation] + delta.edgeReservations)
    && Undone(now.owners, [delta.nodeReservation] + delta.edgeReservations) == before.owners
  }

  // Entering one more dependence, with or without links, can be taken back too.
  lemma LeadsBackMore(delta: CandidateDelta, now: Snapshot, before: Snapshot, e: nat, dependence: MappedDependence,
                      reservation: Delta)
    requires LeadsBack(delta, now, before) && e !in now.dependences && Reservable(now.owners, reservation.resources)
    ensures LeadsBack(delta.(edges := delta.edges + [e], edgeReservations := delta.edgeReservations + [reservation]),
                      Snapshot(now.placements, now.dependences[e := dependence],
                               Assign(now.owners, reservation.resources, Some(reservation.owner))), before)
    ensures LeadsBack(delta.(edges := delta.edges + [e]),
                      Snapshot(now.placements, now.dependences[e := dependence], now.owners), before)
  {
    UndoneMore(now.owners, [delta.nodeReservation] + delta.edgeReservations, reservation);
    assert [delta.nodeReservation] + (delta.edgeReservations + [reservation]) ==
           [delta.nodeReservation] + delta.edgeReservations + [reservation];
    assert Set(delta.edges + [e]) == Set(delta.edges) + {e};
    assert now.dependences[e := dependence] - (Set(delta.edges) + {e}) == now.dependences - Set(delta.edges);
  }

  ghost function Set(s: seq<nat>): set<nat> {
    set x | x in s
  }

  /**
   * What a search is about: a graph, a target at some II, whether values may wait on their way, and whether the caller
   * checks complete mappings.
   */
  datatype Task = Task(dfg: TargetDFG, target: TargetModel, model: ResourceModel, allowHold: bool, checked: bool) {
    ghost predicate Ready() {
      && 0 < model.ii && target.Valid() && dfg.Valid(target) && dfg.targetName == target.name
      && model.Valid() && model.target == target
    }

    // The state is a legal partial mapping whose claims are exactly what the table records;
    // every edge with both ends placed is realised, save those in `todo`.
    ghost predicate Coherent(s: Snapshot, todo: set<nat>) {
      && Ready()
      && s.placements.Keys <= dfg.NodeIds() && |s.owners| == |model.resources|
      && PartsLegal(dfg, target, model.ii, s.placements, s.dependences)
      && s.dependences.Keys == ClosedEdges(dfg, s.placements.Keys) - todo
      && Holds(model, s.owners, Claims(dfg, target, model.ii, s.placements, s.dependences))
    }

    // A value edge between placed nodes that cannot be routed over the links left free.
    ghost predicate Unroutable(s: Snapshot, e: nat) {
      && dfg.HasEdge(e) && dfg.Edge(e).kind != MemoryEdge && dfg.HasNode(dfg.Edge(e).src)
      && dfg.Edge(e).src in s.placements && dfg.Edge(e).dst in s.placements
      && var edge := dfg.Edge(e);
      var producer, consumer := s.placements[edge.src], s.placements[edge.dst];
      if producer.tile == consumer.tile then !allowHold
      else RouteSearch.Unreachable(RouteSearch.TerrainFor(dfg, model, s.owners, edge, producer, allowHold), consumer.tile)
    }

    // The node's footprint fits the II and is free.
    ghost predicate Placeable(s: Snapshot, p: NodePlacement) {
      && dfg.HasNode(p.node) && dfg.Node(p.node).operation in target.operations && 0 < model.ii && model.Valid()
      && var operation := target.operations[dfg.Node(p.node).operation];
      && operation.issueOccupancy <= model.ii
      && model.Knows(Footprint(operation, p.tile, p.issueSlot, model.ii))
      && Reservable(s.owners, model.IdsOf(Footprint(operation, p.tile, p.issueSlot, model.ii)))
    }

    // Some edge still to be realised cannot be.
    ghost predicate Halted(s: Snapshot) {
      exists todo, e :: Coherent(s, todo) && todo <= ClosedEdges(dfg, s.placements.Keys) && e in todo && Unroutable(s, e)
    }

    /**
     * With `left` nodes to go: some unplaced node was tried on every tile that supports it and in every slot, and each
     * try failed for a reason. With none to go, the caller has a check and refused the complete mapping.
     */
    ghost predicate DeadEnd(left: nat, s: Snapshot)
      decreases left, 1
    {
      if left == 0 then checked else exists n :: dfg.HasNode(n) && n !in s.placements && Refuted(left, s, n)
    }

    ghost predicate Refuted(left: nat, s: Snapshot, n: nat)
      requires dfg.HasNode(n) && 0 < left
      decreases left, 0
    {
      forall tile, slot: nat | target.TileSupports(tile, dfg.Node(n).operation) && slot < model.ii ::
        Refused(left, s, NodePlacement(n, tile, slot))
    }

    // The placement cannot be made, an edge it closes cannot be routed, or what follows is a dead end.
    ghost predicate Refused(left: nat, s: Snapshot, p: NodePlacement)
      requires 0 < left
      decreases left - 1, 2
    {
      !Placeable(s, p) ||
      exists s' :: Adds(s, p, s') && (Halted(s') || (Coherent(s', {}) && DeadEnd(left - 1, s')))
    }

    // The placement is made and what was realised before stays as it was.
    ghost predicate Adds(s: Snapshot, p: NodePlacement, s': Snapshot) {
      && s'.placements == s.placements[p.node := p]
      && forall e :: e in s.dependences ==> e in s'.dependences && s'.dependences[e] == s.dependences[e]
    }

    lemma EdgeStops(s: Snapshot, todo: set<nat>, e: nat)
      requires Coherent(s, todo) && todo <= ClosedEdges(dfg, s.placements.Keys) && e in todo && Unroutable(s, e)
      ensures Halted(s)
    {
      hide Coherent, ClosedEdges, Unroutable;
    }

    lemma RefusedSince(left: nat, s: Snapshot, p: NodePlacement, s': Snapshot, delta: CandidateDelta)
      requires 0 < left && s'.placements == s.placements[p.node := p] && LeadsBack(delta, s', s)
      requires Halted(s') || (Coherent(s', {}) && DeadEnd(left - 1, s'))
      ensures Refused(left, s, p)
    {
      hide Halted, DeadEnd, Coherent, AllHeld, Undone;
      forall e | e in s.dependences
        ensures e in s'.dependences && s'.dependences[e] == s.dependences[e]
      {
        assert e in s'.dependences - Set(delta.edges);
      }
      assert Adds(s, p, s');
    }

    lemma RefusedNow(left: nat, s: Snapshot, p: NodePlacement)
      requires 0 < left && !Placeable(s, p)
      ensures Refused(left, s, p)
    {
      hide Placeable, Halted, DeadEnd, Coherent;
    }

    lemma DeadEndSince(left: nat, s: Snapshot, n: nat)
      requires 0 < left && dfg.HasNode(n) && n !in s.placements
      requires forall tile, slot: nat | target.TileSupports(tile, dfg.Node(n).operation) && slot < model.ii ::
        Refused(left, s, NodePlacement(n, tile, slot))
      ensures DeadEnd(left, s)
    {
      hide Refused, TargetDFG.HasNode, TargetModel.TileSupports;
      assert Refuted(left, s, n);
    }

    lemma NothingLeft(s: Snapshot)
      requires checked
      ensures DeadEnd(0, s)
    {
    }

    lemma NoRoute(s: Snapshot, e: nat, producer: NodePlacement, consumer: NodePlacement)
      requires dfg.HasEdge(e) && dfg.Edge(e).kind != MemoryEdge && dfg.HasNode(dfg.Edge(e).src)
      requires dfg.Edge(e).src in s.placements && s.placements[dfg.Edge(e).src] == producer
      requires dfg.Edge(e).dst in s.placements && s.placements[dfg.Edge(e).dst] == consumer
      requires producer.tile == consumer.tile ==> !allowHold
      requires producer.tile != consumer.tile ==>
        RouteSearch.Unreachable(RouteSearch.TerrainFor(dfg, model, s.owners, dfg.Edge(e), producer, allowHold), consumer.tile)
      ensures Unroutable(s, e)
    {
      hide RouteSearch.Unreachable, TargetDFG.HasEdge, TargetDFG.HasNode;
    }

    lemma AboutPlaceable(s: Snapshot, p: NodePlacement)
      requires Ready() && dfg.HasNode(p.node) && target.TileSupports(p.tile, dfg.Node(p.node).operation)
      ensures dfg.Node(p.node).operation in target.operations
      ensures Placeable(s, p) <==>
        var operation := target.operations[dfg.Node(p.node).operation];
        && operation.issueOccupancy <= model.ii
        && model.Knows(Footprint(operation, p.tile, p.issueSlot, model.ii))
        && Reservable(s.owners, model.IdsOf(Footprint(operation, p.tile, p.issueSlot, model.ii)))
    {
      hide Footprint, Reservable, ResourceModel.Knows, ResourceModel.Valid, TargetDFG.HasNode, TargetDFG.Valid;
    }
  }

  // The route search was not given enough room to decide every question.
  predicate TightRouting(options: RouteSearch.RouteOptions, target: TargetModel, ii: nat) {
    || options.maxStateExpansions < RouteStates.StateCount(target, ii)
    || options.maxQueuePushes <= 5 * RouteStates.StateCount(target, ii)
  }

  // Crossing every routing state once may take longer than 32 bits can say.
  predicate LateRouting(dfg: TargetDFG, target: TargetModel, ii: nat) {
    exists i :: 0 <= i < |dfg.nodes| && dfg.nodes[i].outputReady.Some? &&
      dfg.nodes[i].outputReady.value + RouteStates.StateCount(target, ii) * target.hopLatency > U32_MAX
  }

  lemma LateRoute(dfg: TargetDFG, model: ResourceModel, owners: seq<Option<Owner>>, edge: TargetEdge,
                  producer: NodePlacement, consumer: NodePlacement, allowHold: bool)
    requires dfg.HasNode(edge.src) && dfg.Node(edge.src).outputReady.Some? && 0 < model.ii && model.target.Valid()
    requires producer.tile == consumer.tile ==> dfg.Node(edge.src).outputReady.value == U32_MAX
    requires producer.tile != consumer.tile ==>
      RouteSearch.TooLate(RouteSearch.TerrainFor(dfg, model, owners, edge, producer, allowHold), consumer.tile)
    ensures LateRouting(dfg, model.target, model.ii)
  {
    var node := dfg.Node(edge.src);
    var i :| 0 <= i < |dfg.nodes| && dfg.nodes[i] == node;
    var count, hop := RouteStates.StateCount(model.target, model.ii), model.target.hopLatency;
    ModuloArithmetic.PositiveProduct(model.target.rows, model.target.cols);
    ModuloArithmetic.PositiveProduct(model.target.rows * model.target.cols, model.ii);
    ModuloArithmetic.PositiveProduct(count, hop);
    assert dfg.nodes[i].outputReady.value + count * hop > U32_MAX;
  }

  lemma AboutTight(options: RouteSearch.RouteOptions, target: TargetModel, ii: nat)
    ensures TightRouting(options, target, ii) <==>
      || options.maxStateExpansions < RouteStates.StateCount(target, ii)
      || options.maxQueuePushes <= 5 * RouteStates.StateCount(target, ii)
  {
  }

  class MappingSearchState {
    const dfg: TargetDFG
    const target: TargetModel
    const ii: nat
    const model: ResourceModel
    const table: ReservationTable
    const limits: SearchLimits
    const routeOptions: RouteSearch.RouteOptions
    const checked: bool
    var placements: map<nat, NodePlacement>
    var dependences: map<nat, MappedDependence>
    var mapping: Option<ModuloMapping>
    var stats: Stats

    constructor (dfg: TargetDFG, target: TargetModel, model: ResourceModel, table: ReservationTable,
                 limits: SearchLimits, routeOptions: RouteSearch.RouteOptions, checked: bool, stats: Stats)
      ensures this.dfg == dfg && this.target == target && this.ii == model.ii && this.model == model
      ensures this.table == table && this.limits == limits && this.routeOptions == routeOptions
      ensures this.checked == checked
      ensures placements == map[] && dependences == map[] && mapping == None
      ensures this.stats == stats
    {
      this.dfg, this.target, this.ii, this.model, this.table := dfg, target, model.ii, model, table;
      this.limits, this.routeOptions, this.checked, this.stats := limits, routeOptions, checked, stats;
      this.placements, this.dependences, this.mapping := map[], map[], None;
    }

    ghost function Goal(): Task {
      Task(dfg, target, model, routeOptions.allowVirtualHold, checked)
    }

    ghost predicate Ready() {
      && 0 < ii && target.Valid() && dfg.Valid(target) && dfg.targetName == target.name
      && model.Valid() && model.target == target && model.ii == ii
    }

    ghost predicate Coherent(s: Snapshot, todo: set<nat>) {
      && Ready()
      && s.placements.Keys <= dfg.NodeIds() && |s.owners| == |model.resources|
      && PartsLegal(dfg, target, ii, s.placements, s.dependences)
      && s.dependences.Keys == ClosedEdges(dfg, s.placements.Keys) - todo
      && Holds(model, s.owners, Claims(dfg, target, ii, s.placements, s.dependences))
    }

    lemma AboutGoal(s: Snapshot, todo: set<nat>)
      requires Coherent(s, todo)
      ensures Goal().Ready() && Goal().Coherent(s, todo) && Goal().model.ii == ii
      ensures Goal().dfg == dfg && Goal().target == target && Goal().model == model
      ensures Goal().allowHold == routeOptions.allowVirtualHold && Goal().checked == checked
    {
      hide PartsLegal, ClosedEdges, Holds, Claims, TargetModel.Valid, TargetDFG.Valid, ResourceModel.Valid;
    }

    // The mapping found is one the verifier accepts.
    ghost predicate Completed()
      reads this
    {
      mapping.Some? && mapping.value.ii == ii && Legal(dfg, target, mapping.value)
    }

    // What the search costs at most with `left` nodes to go.
    ghost function SearchCost(left: nat): Expense {
      TreeCost(ii * MostTiles(target, dfg.nodes), |dfg.edges|, left)
    }

    // How many candidates it has tried at least when it is exhausted.
    ghost function SearchTries(left: nat): nat {
      if left == 0 then 0 else LeastTries(dfg, target, ii)
    }

    lemma AboutSearchCost(left: nat)
      requires left > 0
      ensures SearchCost(left) ==
              Times(ii * MostTiles(target, dfg.nodes), OneTry(SearchCost(left - 1), |dfg.edges|))
      ensures SearchTries(left) == LeastTries(dfg, target, ii)
      ensures SearchCost(0) == Expense(0, 0, 0) && SearchTries(0) == 0
    {
    }

    // ----- Rolling back -----

    method Rollback(delta: CandidateDelta, ghost before: Snapshot)
      requires LeadsBack(delta, Snapshot(placements, dependences, table.owners), before)
      modifies this`placements, this`dependences, table
      ensures placements == before.placements && dependences == before.dependences && table.owners == before.owners
    {
      ghost var deltas := [delta.nodeReservation] + delta.edgeReservations;
      dependences := Without(dependences, delta.edges);
      assert deltas[..|delta.edgeReservations| + 1] == deltas;
      for i := |delta.edgeReservations| downto 0
        invariant placements == old(placements) && dependences == before.dependences
        invariant AllHeld(table.owners, deltas[..i + 1])
        invariant Undone(table.owners, deltas[..i + 1]) == before.owners
      {
        assert deltas[..i + 2][..i + 1] == deltas[..i + 1] && deltas[..i + 2][i + 1] == delta.edgeReservations[i];
        var undone := table.Undo(delta.edgeReservations[i]);
      }
      assert deltas[..1][..0] == [] && deltas[..1][0] == delta.nodeReservation;
      var undone := table.Undo(delta.nodeReservation);
      placements := placements - {delta.node};
    }

    static function Without(m: map<nat, MappedDependence>, keys: seq<nat>): (r: map<nat, MappedDependence>)
      ensures r == m - Set(keys)
    {
      if keys == [] then m else Without(m, keys[..|keys| - 1]) - {keys[|keys| - 1]}
    }

    // ----- Realising one edge -----

    // The mapped placements of a coherent state are fit for routing.
    lemma EdgeParts(s: Snapshot, todo: set<nat>, e: nat)
      requires Coherent(s, todo) && e in todo && todo <= ClosedEdges(dfg, s.placements.Keys)
      ensures model.Valid() && model.target == target && model.ii == ii && 0 < ii && target.Valid()
      ensures |s.owners| == |model.resources| && dfg.HasEdge(e) && e !in s.dependences
      ensures var edge := dfg.Edge(e);
        && edge.src in s.placements && edge.dst in s.placements && dfg.HasNode(edge.src)
        && (edge.kind != MemoryEdge ==>
              RouteSearch.Routed(dfg, model, e, s.placements[edge.src], s.placements[edge.dst]))
    {
      hide Holds, Claims, TargetModel.Valid, PartsLegal, RouteSearch.PlacementFits, ClosedEdges, TargetDFG.HasNode,
           TargetDFG.HasEdge;
      ClosedEdge(s.placements.Keys, e);
      var edge := dfg.Edge(e);
      PlacedFits(s, todo, edge.src);
      PlacedFits(s, todo, edge.dst);
    }

    lemma ClosedEdge(placed: set<nat>, e: nat)
      requires dfg.UniqueIds() && e in ClosedEdges(dfg, placed)
      ensures dfg.HasEdge(e) && dfg.Edge(e).src in placed && dfg.Edge(e).dst in placed
    {
      var i :| 0 <= i < |dfg.edges| && dfg.edges[i].id == e && dfg.edges[i].src in placed && dfg.edges[i].dst in placed;
      dfg.EdgeUnique(dfg.edges[i]);
    }

    lemma PlacedFits(s: Snapshot, todo: set<nat>, n: nat)
      requires Coherent(s, todo) && n in s.placements
      ensures dfg.HasNode(n) && RouteSearch.PlacementFits(dfg, model, s.placements[n], n)
    {
      hide Holds, Claims, TargetModel.Valid, ClosedEdges, DependenceLegal;
      var i :| 0 <= i < |dfg.nodes| && dfg.nodes[i].id == n;
      assert dfg.HasNode(n);
      assert NodeLegal(target, ii, dfg.Node(n), s.placements[n]);
    }

    // Recording a legal dependence whose links were just reserved keeps the state coherent.
    lemma DependenceRecorded(s: Snapshot, todo: set<nat>, e: nat, dependence: MappedDependence, links: seq<Resource>)
      requires Coherent(s, todo) && e in todo && todo <= ClosedEdges(dfg, s.placements.Keys) && dfg.HasEdge(e)
      requires dfg.Edge(e).src in s.placements
      requires DependenceLegal(dfg, target, ii, dfg.Edge(e), s.placements, dependence)
      requires links == (if dependence.transport.None? then []
                         else LinksOf(ContextFor(target, ii, dfg.Edge(e).kind, s.placements[dfg.Edge(e).src]),
                                      dependence.transport.value.actions))
      requires model.Knows(links) && Reservable(s.owners, model.IdsOf(links))
      ensures Coherent(Snapshot(s.placements, s.dependences[e := dependence],
                                Assign(s.owners, model.IdsOf(links), Some(Owner(EdgeOwner, e)))), todo - {e})
    {
      hide Holds, TargetModel.Valid, NodeLegal, ClaimOf, DependenceLegal, TargetDFG.HasNode, Reservable;
      var edge, dependences' := dfg.Edge(e), s.dependences[e := dependence];
      RealisingAdds(dfg, target, ii, s.placements, s.dependences, edge, dependence);
      Enter(model, s.owners, Claims(dfg, target, ii, s.placements, s.dependences),
            Claims(dfg, target, ii, s.placements, dependences'), Owner(EdgeOwner, e), links);
      forall edge' | edge' in dfg.edges && edge'.id in dependences'
        ensures DependenceLegal(dfg, target, ii, edge', s.placements, dependences'[edge'.id])
      {
        dfg.EdgeUnique(edge');
      }
    }

    // Realises one edge between placed nodes; on any other outcome nothing has changed.
    method RealizeEdge(e: nat, delta: CandidateDelta, ghost before: Snapshot, ghost todo: set<nat>)
      returns (outcome: SearchOutcome, delta': CandidateDelta)
      requires Coherent(Snapshot(placements, dependences, table.owners), todo)
      requires e in todo && todo <= ClosedEdges(dfg, placements.Keys)
      requires LeadsBack(delta, Snapshot(placements, dependences, table.owners), before) && Within(stats, limits)
      modifies this`dependences, this`stats, table
      ensures Within(stats, limits) && Entering(outcome)
      ensures outcome == PerIIBudgetExceeded ==> stats.routeSearchCalls >= limits.routeSearchCalls
      ensures outcome == RouteBudgetExceeded ==> TightRouting(routeOptions, target, ii)
      ensures outcome == InternalError(RouteSearchFailed) ==> LateRouting(dfg, target, ii)
      ensures outcome == Success ==>
        && Coherent(Snapshot(placements, dependences, table.owners), todo - {e})
        && LeadsBack(delta', Snapshot(placements, dependences, table.owners), before)
      ensures outcome != Success ==>
        dependences == old(dependences) && table.owners == old(table.owners) && delta' == delta
      ensures outcome == Exhausted ==> Goal().Unroutable(Snapshot(placements, dependences, table.owners), e)
      ensures dfg.HasEdge(e) &&
        stats == old(stats).(routeSearchCalls := old(stats.routeSearchCalls) +
          if dfg.Edge(e).kind == MemoryEdge || outcome == PerIIBudgetExceeded then 0 else 1)
    {
      hide *;
      AboutOutcomes();
      ghost var now := Snapshot(placements, dependences, table.owners);
      EdgeParts(now, todo, e);
      AboutGoal(now, todo);
      AboutTight(routeOptions, target, ii);
      delta' := delta;
      var edge := dfg.Edge(e);
      if edge.kind == MemoryEdge {
        var separation := target.MemorySeparation(edge.dependence);
        var dependence := MappedDependence(e, edge.kind, separation, None);
        MemoryRecorded(now, todo, e, dependence, delta, before);
        dependences := dependences[e := dependence];
        delta' := delta.(edges := delta.edges + [e]);
        return Success, delta';
      }
      if stats.routeSearchCalls >= limits.routeSearchCalls {
        return PerIIBudgetExceeded, delta;
      }
      StillWithin(stats, limits);
      stats := stats.(routeSearchCalls := stats.routeSearchCalls + 1);
      var producer, consumer := placements[edge.src], placements[edge.dst];
      var route := RouteSearch.Search(dfg, model, table, e, producer, consumer, routeOptions);
      if route.status == RouteSearch.NoPath {
        Goal().NoRoute(now, e, producer, consumer);
        return Exhausted, delta;
      }
      if route.status == RouteSearch.BudgetExceeded {
        return RouteBudgetExceeded, delta;
      }
      if route.status != RouteSearch.Success {
        LateRoute(dfg, model, table.owners, edge, producer, consumer, routeOptions.allowVirtualHold);
        return InternalError(RouteSearchFailed), delta;
      }
      RouteParts(now, todo, e, producer, consumer, route.plan.value);
      var ctx := ContextFor(model.target, model.ii, edge.kind, producer);
      var links := RouteSearch.LinkIds(ctx, model, route.plan.value.actions,
                                       Availability(producer.tile, dfg.Node(edge.src).outputReady.value));
      var dependence := MappedDependence(e, edge.kind, route.plan.value.requiredSeparation, route.plan);
      RouteEntered(now, todo, e, route.plan.value, routeOptions.allowVirtualHold, dependence, delta, before);
      var reservation := table.TryReserve(links.value, Owner(EdgeOwner, e));
      if reservation.None? {
        return InternalError(RouteNotReservable), delta;
      }
      dependences := dependences[e := dependence];
      delta' := delta.(edges := delta.edges + [e], edgeReservations := delta.edgeReservations + [reservation.value]);
      return Success, delta';
    }

    static lemma StillWithin(stats: Stats, limits: SearchLimits)
      requires Within(stats, limits)
      ensures stats.routeSearchCalls < limits.routeSearchCalls ==>
        Within(stats.(routeSearchCalls := stats.routeSearchCalls + 1), limits)
    {
    }

    lemma MemoryRecorded(now: Snapshot, todo: set<nat>, e: nat, dependence: MappedDependence, delta: CandidateDelta,
                         before: Snapshot)
      requires Coherent(now, todo) && e in todo && todo <= ClosedEdges(dfg, now.placements.Keys)
      requires dfg.HasEdge(e) && dfg.Edge(e).kind == MemoryEdge && LeadsBack(delta, now, before)
      requires dependence == MappedDependence(e, MemoryEdge, target.MemorySeparation(dfg.Edge(e).dependence), None)
      ensures var after := Snapshot(now.placements, now.dependences[e := dependence], now.owners);
        && Coherent(after, todo - {e})
        && LeadsBack(delta.(edges := delta.edges + [e]), after, before)
    {
      EdgeParts(now, todo, e);
      hide Coherent, LeadsBack, ClosedEdges, TargetDFG.HasEdge, TargetModel.Valid, RouteSearch.Routed, ResourceModel.Valid;
      assert model.IdsOf([]) == [];
      assert Assign(now.owners, [], Some(Owner(EdgeOwner, e))) == now.owners;
      DependenceRecorded(now, todo, e, dependence, []);
      LeadsBackMore(delta, now, before, e, dependence, Delta(Owner(EdgeOwner, e), []));
    }

    // What a successful route search hands over.
    lemma RouteParts(now: Snapshot, todo: set<nat>, e: nat, producer: NodePlacement, consumer: NodePlacement,
                     plan: TransportPlan)
      requires Coherent(now, todo) && e in todo && todo <= ClosedEdges(dfg, now.placements.Keys)
      requires dfg.HasEdge(e) && dfg.HasNode(dfg.Edge(e).src) && dfg.Node(dfg.Edge(e).src).outputReady.Some?
      requires PlanLegal(model.target, model.ii, dfg.Edge(e), dfg.Node(dfg.Edge(e).src).outputReady.value,
                         producer, consumer, plan)
      ensures var ctx := ContextFor(model.target, model.ii, dfg.Edge(e).kind, producer);
        && ctx.target == model.target && ctx.ii == model.ii && 0 < ctx.ii
        && Follow(ctx, plan.actions, Availability(producer.tile, dfg.Node(dfg.Edge(e).src).outputReady.value)).Some?
        && Distinct(LinksOf(ctx, plan.actions))
    {
      EdgeParts(now, todo, e);
      hide Coherent, ClosedEdges, TargetDFG.HasEdge, TargetModel.Valid, RouteSearch.Routed, Follow, LinksOf;
    }

    // Its links are free and distinct, so they can be reserved, and everything stays as it should be.
    lemma RouteEntered(now: Snapshot, todo: set<nat>, e: nat, plan: TransportPlan, allowHold: bool,
                       dependence: MappedDependence, delta: CandidateDelta, before: Snapshot)
      requires Coherent(now, todo) && e in todo && todo <= ClosedEdges(dfg, now.placements.Keys)
      requires dfg.HasEdge(e) && dfg.HasNode(dfg.Edge(e).src) && dfg.Edge(e).kind != MemoryEdge
      requires dfg.Edge(e).src in now.placements && dfg.Edge(e).dst in now.placements
      requires dfg.Node(dfg.Edge(e).src).outputReady.Some?
      requires var edge := dfg.Edge(e);
        var producer, consumer := now.placements[edge.src], now.placements[edge.dst];
        var t := RouteSearch.TerrainFor(dfg, model, now.owners, edge, producer, allowHold);
        && t.Valid() && RouteSearch.Carries(t, consumer.tile, plan)
        && PlanLegal(model.target, model.ii, edge, dfg.Node(edge.src).outputReady.value, producer, consumer, plan)
      requires dependence == MappedDependence(e, dfg.Edge(e).kind, plan.requiredSeparation, Some(plan))
      requires LeadsBack(delta, now, before)
      ensures model.Valid()
      ensures var edge := dfg.Edge(e);
        var ctx := ContextFor(model.target, model.ii, edge.kind, now.placements[edge.src]);
        && 0 < ctx.ii && model.Knows(LinksOf(ctx, plan.actions))
        && var links, owner := model.IdsOf(LinksOf(ctx, plan.actions)), Owner(EdgeOwner, e);
        var after := Snapshot(now.placements, now.dependences[e := dependence],
                              Assign(now.owners, links, Some(owner)));
        && Reservable(now.owners, links)
        && Coherent(after, todo - {e})
        && LeadsBack(delta.(edges := delta.edges + [e],
                            edgeReservations := delta.edgeReservations + [Delta(owner, links)]), after, before)
    {
      hide Coherent, ClosedEdges, TargetDFG.HasEdge, TargetDFG.HasNode, TargetModel.Valid, RouteSearch.Routed, Follow,
           LinksOf, LeadsBack, Terrain.FreeWalk, ResourceModel.Valid;
      EdgeParts(now, todo, e);
      var edge := dfg.Edge(e);
      var producer := now.placements[edge.src];
      var ctx := ContextFor(model.target, model.ii, edge.kind, producer);
      RouteClaimKnown(model, ctx, plan.actions, Availability(producer.tile, dfg.Node(edge.src).outputReady.value));
      Verifier.ReservableIsFree(model, now.owners, LinksOf(ctx, plan.actions));
      DependenceRecorded(now, todo, e, dependence, LinksOf(ctx, plan.actions));
      LeadsBackMore(delta, now, before, e, dependence,
                    Delta(Owner(EdgeOwner, e), model.IdsOf(LinksOf(ctx, plan.actions))));
    }

    // ----- One candidate -----

    // The realisable edges that are not realised yet, in id order.
    method UnrealizedEdges(node: nat) returns (edges: seq<nat>)
      requires Ready() && node in placements
      requires dependences.Keys == ClosedEdges(dfg, placements.Keys - {node})
      ensures Set(edges) == ClosedEdges(dfg, placements.Keys) - dependences.Keys
      ensures forall i, j :: 0 <= i < j < |edges| ==> edges[i] != edges[j]
    {
      var found: set<nat> := {};
      for i := 0 to |dfg.edges|
        invariant found == ClosedBefore(node, i)
      {
        var edge := dfg.edges[i];
        if (edge.src == node || edge.dst == node) && edge.src in placements && edge.dst in placements &&
           edge.id !in dependences {
          found := found + {edge.id};
        }
      }
      edges := AscendingKeys(found);
      AllClosed(node, found, placements.Keys, dependences.Keys);
      assert Set(edges) == found;
    }

    // Edges among the first i that touch the node, have both ends placed and are not realised.
    ghost function ClosedBefore(node: nat, i: nat): set<nat>
      requires i <= |dfg.edges|
      reads this
    {
      set j | 0 <= j < i && (dfg.edges[j].src == node || dfg.edges[j].dst == node) &&
              dfg.edges[j].src in placements && dfg.edges[j].dst in placements && dfg.edges[j].id !in dependences
        :: dfg.edges[j].id
    }

    lemma AllClosed(node: nat, found: set<nat>, placed: set<nat>, realised: set<nat>)
      requires dfg.UniqueIds() && node in placed && realised == ClosedEdges(dfg, placed - {node})
      requires found == set j | 0 <= j < |dfg.edges| && (dfg.edges[j].src == node || dfg.edges[j].dst == node) &&
        dfg.edges[j].src in placed && dfg.edges[j].dst in placed && dfg.edges[j].id !in realised :: dfg.edges[j].id
      ensures found == ClosedEdges(dfg, placed) - realised
    {
      forall e | e in ClosedEdges(dfg, placed) && e !in realised
        ensures e in found
      {
        var i :| 0 <= i < |dfg.edges| && dfg.edges[i].id == e && dfg.edges[i].src in placed && dfg.edges[i].dst in placed;
        BothPlaced(i, placed - {node});
      }
    }

    lemma BothPlaced(i: nat, placed: set<nat>)
      requires i < |dfg.edges|
      ensures dfg.edges[i].src in placed && dfg.edges[i].dst in placed ==> dfg.edges[i].id in ClosedEdges(dfg, placed)
    {
    }

    // Entering the node's footprint and placement.
    lemma PlacementEntered(now: Snapshot, placement: NodePlacement, footprint: seq<nat>)
      requires Coherent(now, {}) && dfg.HasNode(placement.node) && placement.node !in now.placements
      requires NodeLegal(target, ii, dfg.Node(placement.node), placement)
      requires var units := Footprint(target.operations[dfg.Node(placement.node).operation], placement.tile,
                                      placement.issueSlot, ii);
        model.Knows(units) && footprint == model.IdsOf(units)
      requires Reservable(now.owners, footprint)
      ensures var owner := Owner(NodeOwner, placement.node);
        var after := Snapshot(now.placements[placement.node := placement], now.dependences,
                              Assign(now.owners, footprint, Some(owner)));
        && Coherent(after, ClosedEdges(dfg, after.placements.Keys) - now.dependences.Keys)
        && now.dependences.Keys == ClosedEdges(dfg, after.placements.Keys - {placement.node})
        && LeadsBack(CandidateDelta(placement.node, Delta(owner, footprint), [], []), after, now)
    {
      var owner := Owner(NodeOwner, placement.node);
      var after := Snapshot(now.placements[placement.node := placement], now.dependences,
                            Assign(now.owners, footprint, Some(owner)));
      hide DependenceLegal, LeadsBack, Holds, Claims, Reservable, TargetModel.Valid, TargetDFG.Valid, NodeLegal, Footprint,
           ResourceModel.Valid, TargetDFG.HasNode, TargetDFG.NodeIds;
      PlacementUndone(now, placement, footprint);
      NodesStayLegal(now, placement);
      EdgesStayLegal(now, placement);
      PlacementClaimed(now, placement, footprint);
      assert after.placements.Keys == now.placements.Keys + {placement.node};
      assert after.placements.Keys - {placement.node} == now.placements.Keys;
      assert now.dependences.Keys <= ClosedEdges(dfg, after.placements.Keys);
    }

    lemma PlacementUndone(now: Snapshot, placement: NodePlacement, footprint: seq<nat>)
      requires placement.node !in now.placements && Reservable(now.owners, footprint)
      ensures var owner := Owner(NodeOwner, placement.node);
        LeadsBack(CandidateDelta(placement.node, Delta(owner, footprint), [], []),
                  Snapshot(now.placements[placement.node := placement], now.dependences,
                           Assign(now.owners, footprint, Some(owner))), now)
    {
      var delta := Delta(Owner(NodeOwner, placement.node), footprint);
      UndoneMore(now.owners, [], delta);
      assert [] + [delta] == [delta] + [];
      assert Set([]) == {};
    }

    lemma CoherentParts(s: Snapshot, todo: set<nat>)
      requires Coherent(s, todo)
      ensures dfg.UniqueIds() && PartsLegal(dfg, target, ii, s.placements, s.dependences)
      ensures s.dependences.Keys == ClosedEdges(dfg, s.placements.Keys) - todo
    {
      hide PartsLegal, ClosedEdges, Holds, Claims, TargetModel.Valid, TargetDFG.NodeIds;
    }

    lemma NodesStayLegal(now: Snapshot, placement: NodePlacement)
      requires Coherent(now, {}) && dfg.HasNode(placement.node)
      requires NodeLegal(target, ii, dfg.Node(placement.node), placement)
      ensures forall node :: node in dfg.nodes && node.id in now.placements[placement.node := placement] ==>
        NodeLegal(target, ii, node, now.placements[placement.node := placement][node.id])
      ensures placement.node in dfg.NodeIds()
    {
      hide Coherent, NodeLegal, DependenceLegal;
      CoherentParts(now, {});
      forall node | node in dfg.nodes && node.id in now.placements[placement.node := placement]
        ensures NodeLegal(target, ii, node, now.placements[placement.node := placement][node.id])
      {
        dfg.NodeUnique(node);
      }
    }

    // An existing dependence runs between nodes placed before, so a new placement leaves it legal.
    lemma EdgesStayLegal(now: Snapshot, placement: NodePlacement)
      requires Coherent(now, {}) && placement.node !in now.placements
      ensures forall edge :: edge in dfg.edges && edge.id in now.dependences ==>
        DependenceLegal(dfg, target, ii, edge, now.placements[placement.node := placement], now.dependences[edge.id])
      ensures forall e :: e in now.dependences ==> dfg.HasEdge(e) && dfg.Edge(e).src in now.placements
    {
      hide Coherent, NodeLegal, PlanLegal, ClosedEdges, TargetDFG.HasEdge, TargetDFG.HasNode;
      CoherentParts(now, {});
      forall e | e in now.dependences
        ensures dfg.HasEdge(e) && dfg.Edge(e).src in now.placements && dfg.Edge(e).dst in now.placements
      {
        ClosedEdge(now.placements.Keys, e);
      }
      forall edge | edge in dfg.edges && edge.id in now.dependences
        ensures DependenceLegal(dfg, target, ii, edge, now.placements[placement.node := placement],
                                now.dependences[edge.id])
      {
        dfg.EdgeUnique(edge);
        assert DependenceLegal(dfg, target, ii, edge, now.placements, now.dependences[edge.id]);
      }
    }

    lemma PlacementClaimed(now: Snapshot, placement: NodePlacement, footprint: seq<nat>)
      requires Coherent(now, {}) && dfg.HasNode(placement.node) && placement.node !in now.placements
      requires NodeLegal(target, ii, dfg.Node(placement.node), placement)
      requires var units := Footprint(target.operations[dfg.Node(placement.node).operation], placement.tile,
                                      placement.issueSlot, ii);
        model.Knows(units) && footprint == model.IdsOf(units)
      requires Reservable(now.owners, footprint)
      ensures Holds(model, Assign(now.owners, footprint, Some(Owner(NodeOwner, placement.node))),
                    Claims(dfg, target, ii, now.placements[placement.node := placement], now.dependences))
    {
      hide Holds, TargetModel.Valid, ClaimOf, Reservable, PartsLegal, ClosedEdges, Footprint, TargetModel.TileSupports;
      EdgesStayLegal(now, placement);
      var node := dfg.Node(placement.node);
      var units := Footprint(target.operations[node.operation], placement.tile, placement.issueSlot, ii);
      PlacingAdds(dfg, target, ii, now.placements, now.dependences, node, placement);
      Enter(model, now.owners, Claims(dfg, target, ii, now.placements, now.dependences),
            Claims(dfg, target, ii, now.placements[placement.node := placement], now.dependences),
            Owner(NodeOwner, placement.node), units);
    }

    // Places the node and realises every edge this closes; what was entered is handed back for a rollback.
    method TryCandidate(node: nat, tile: TileCoord, slot: nat) returns (outcome: SearchOutcome, delta: Option<CandidateDelta>)
      requires Coherent(Snapshot(placements, dependences, table.owners), {}) && Within(stats, limits)
      requires dfg.HasNode(node) && node !in placements && slot < ii
      requires target.TileSupports(tile, dfg.Node(node).operation)
      modifies this`placements, this`dependences, this`stats, table
      ensures Within(stats, limits) && Entering(outcome)
      ensures stats.routeSearchCalls <= old(stats.routeSearchCalls) + |dfg.edges|
      ensures outcome == PerIIBudgetExceeded ==>
        limits.routeSearchCalls <= stats.routeSearchCalls < old(stats.routeSearchCalls) + |dfg.edges|
      ensures outcome == RouteBudgetExceeded ==> TightRouting(routeOptions, target, ii)
      ensures outcome == InternalError(RouteSearchFailed) ==> LateRouting(dfg, target, ii)
      ensures delta.None? <==>
        !Goal().Placeable(Snapshot(old(placements), old(dependences), old(table.owners)), NodePlacement(node, tile, slot))
      ensures delta.None? ==>
        && outcome == Exhausted
        && placements == old(placements) && dependences == old(dependences) && table.owners == old(table.owners)
      ensures delta.Some? ==>
        LeadsBack(delta.value, Snapshot(placements, dependences, table.owners),
                  Snapshot(old(placements), old(dependences), old(table.owners)))
      ensures outcome == Success ==>
        && delta.Some? && Coherent(Snapshot(placements, dependences, table.owners), {})
        && placements.Keys == old(placements.Keys) + {node}
      ensures delta.Some? ==> placements == old(placements)[node := NodePlacement(node, tile, slot)]
      ensures delta.Some? && outcome == Exhausted ==> Goal().Halted(Snapshot(placements, dependences, table.owners))
      ensures OnlyRouted(old(stats), stats)
    {
      hide *;
      AboutOutcomes();
      AboutStats();
      ghost var before := Snapshot(placements, dependences, table.owners);
      var targetNode := dfg.Node(node);
      CandidateParts(before);
      var footprint := model.OperationFootprint(targetNode.operation, tile, slot);
      AboutGoal(before, {});
      Goal().AboutPlaceable(before, NodePlacement(node, tile, slot));
      if footprint.None? {
        return Exhausted, None;
      }
      var placement := NodePlacement(node, tile, slot);
      CandidateLegal(node, placement);
      var owner := Owner(NodeOwner, node);
      var reservation := table.TryReserve(footprint.value, owner);
      if reservation.None? {
        return Exhausted, None;
      }
      PlacementEntered(before, placement, footprint.value);
      placements := placements[node := placement];
      var entered := CandidateDelta(node, reservation.value, [], []);
      var edges := UnrealizedEdges(node);
      FewEdges(edges, placements.Keys);
      outcome, entered := RealizeEdges(edges, entered, before);
      delta := Some(entered);
    }

    lemma FewEdges(edges: seq<nat>, placed: set<nat>)
      requires Ready() && Set(edges) <= ClosedEdges(dfg, placed)
      requires forall i, j :: 0 <= i < j < |edges| ==> edges[i] != edges[j]
      ensures |edges| <= |dfg.edges|
    {
      Builder.DistinctCount(Identity, edges, Set(edges));
      Builder.DistinctCount(EdgeId, dfg.edges, dfg.EdgeIds());
      SubsetCount(Set(edges), dfg.EdgeIds());
    }

    lemma CandidateParts(s: Snapshot)
      requires Coherent(s, {})
      ensures Ready() && model.Valid() && target.Valid() && model.target == target && model.ii == ii && 0 < ii
    {
    }

    lemma CandidateLegal(node: nat, placement: NodePlacement)
      requires Ready() && dfg.HasNode(node) && placement.node == node && placement.issueSlot < ii
      requires target.TileSupports(placement.tile, dfg.Node(node).operation)
      requires dfg.Node(node).operation in target.operations ==>
        target.operations[dfg.Node(node).operation].issueOccupancy <= ii
      ensures dfg.Node(node).operation in target.operations
      ensures NodeLegal(target, ii, dfg.Node(node), placement)
    {
      hide TargetModel.Valid, TargetDFG.Valid;
    }

    // Realises the listed edges in order, stopping at the first that cannot be.
    method RealizeEdges(edges: seq<nat>, delta: CandidateDelta, ghost before: Snapshot)
      returns (outcome: SearchOutcome, delta': CandidateDelta)
      requires Coherent(Snapshot(placements, dependences, table.owners), Set(edges))
      requires Set(edges) <= ClosedEdges(dfg, placements.Keys)
      requires forall i, j :: 0 <= i < j < |edges| ==> edges[i] != edges[j]
      requires LeadsBack(delta, Snapshot(placements, dependences, table.owners), before) && Within(stats, limits)
      modifies this`dependences, this`stats, table
      ensures Within(stats, limits) && Entering(outcome)
      ensures stats.routeSearchCalls <= old(stats.routeSearchCalls) + |edges|
      ensures outcome == PerIIBudgetExceeded ==>
        limits.routeSearchCalls <= stats.routeSearchCalls < old(stats.routeSearchCalls) + |edges|
      ensures outcome == RouteBudgetExceeded ==> TightRouting(routeOptions, target, ii)
      ensures outcome == InternalError(RouteSearchFailed) ==> LateRouting(dfg, target, ii)
      ensures LeadsBack(delta', Snapshot(placements, dependences, table.owners), before)
      ensures outcome == Success ==> Coherent(Snapshot(placements, dependences, table.owners), {})
      ensures outcome == Exhausted ==> Goal().Halted(Snapshot(placements, dependences, table.owners))
      ensures OnlyRouted(old(stats), stats)
    {
      hide *;
      AboutOutcomes();
      AboutStats();
      outcome, delta' := Success, delta;
      assert edges[0..] == edges;
      for i := 0 to |edges|
        invariant Coherent(Snapshot(placements, dependences, table.owners), Set(edges[i..]))
        invariant Set(edges[i..]) <= ClosedEdges(dfg, placements.Keys)
        invariant LeadsBack(delta', Snapshot(placements, dependences, table.owners), before)
        invariant Within(stats, limits) && OnlyRouted(old(stats), stats) && outcome == Success
        invariant stats.routeSearchCalls <= old(stats.routeSearchCalls) + i
      {
        NextEdge(edges, i);
        outcome, delta' := RealizeEdge(edges[i], delta', before, Set(edges[i..]));
        if outcome != Success {
          if outcome == Exhausted {
            AboutGoal(Snapshot(placements, dependences, table.owners), Set(edges[i..]));
            Goal().EdgeStops(Snapshot(placements, dependences, table.owners), Set(edges[i..]), edges[i]);
          }
          return;
        }
      }
      NoEdges(edges);
    }

    static lemma NextEdge(edges: seq<nat>, i: nat)
      requires i < |edges| && forall i, j :: 0 <= i < j < |edges| ==> edges[i] != edges[j]
      ensures edges[i] in Set(edges[i..]) && Set(edges[i + 1..]) == Set(edges[i..]) - {edges[i]}
    {
      assert edges[i..] == [edges[i]] + edges[i + 1..];
    }

    static lemma NoEdges(edges: seq<nat>)
      ensures Set(edges[|edges|..]) == {}
    {
    }

    // ----- Completing and searching -----

    // A complete coherent state is a legal mapping.
    lemma CompleteIsLegal(s: Snapshot)
      requires Coherent(s, {}) && s.placements.Keys == dfg.NodeIds()
      ensures 0 < ii && dfg.UniqueIds() && target.Valid()
      ensures LegalMaps(dfg, target, ii, s.placements, s.dependences)
    {
      hide Holds, Claims, TargetModel.Valid, NodeLegal, DependenceLegal, ResourceModel.Valid;
      EverythingClosed(s);
      assert model.Valid() && model.target == target;
      LedgerDisjoint(model, s.owners, dfg, s.placements, s.dependences);
    }

    lemma EverythingClosed(s: Snapshot)
      requires Coherent(s, {}) && s.placements.Keys == dfg.NodeIds()
      ensures s.dependences.Keys == dfg.EdgeIds()
      ensures forall node :: node in dfg.nodes ==> node.id in s.placements
      ensures forall edge :: edge in dfg.edges ==> edge.id in s.dependences
    {
      hide Holds, Claims, TargetModel.Valid, NodeLegal, DependenceLegal, ResourceModel.Valid, PartsLegal;
      forall e | e in dfg.EdgeIds()
        ensures e in ClosedEdges(dfg, s.placements.Keys)
      {
        var i :| 0 <= i < |dfg.edges| && dfg.edges[i].id == e;
        assert dfg.edges[i] in dfg.edges;
        BothPlaced(i, s.placements.Keys);
      }
    }

    method Complete() returns (outcome: SearchOutcome)
      requires Coherent(Snapshot(placements, dependences, table.owners), {}) && placements.Keys == dfg.NodeIds()
      modifies this`mapping
      ensures outcome == Success ==> Completed()
      ensures Sane(outcome, checked) && outcome != PerIIBudgetExceeded && outcome != RouteBudgetExceeded
      ensures outcome != InternalError(RouteSearchFailed)
      ensures !checked ==> outcome == Success
    {
      hide *;
      CompleteIsLegal(Snapshot(placements, dependences, table.owners));
      Builder.LegalIsBuildable(dfg, target, ii, placements, dependences);
      VerdictOnMaps(Snapshot(placements, dependences, table.owners));
      AboutOutcomes();
      mapping := Builder.BuildInIdOrder(dfg, ii, placements, dependences);
      if mapping.None? {
        return InternalError(MaterializeFailed);
      }
      AcceptedMaps(mapping.value, Snapshot(placements, dependences, table.owners));
      var report := Verifier.Verify(dfg, target, mapping.value);
      if report != [] {
        return VerificationFailure(false);
      }
      if !checked {
        CompletedNow();
        return Success;
      }
      var decision: CheckDecision := *;
      match decision
      case Accept =>
        CompletedNow();
        return Success;
      case Reject =>
        mapping := None;
        return Exhausted;
      case Abort(reason) =>
        mapping := None;
        return match reason
          case BudgetReason => BudgetExceeded
          case VerificationReason => VerificationFailure(true)
          case OtherReason => InternalError(CheckerAborted);
    }

    lemma VerdictOnMaps(s: Snapshot)
      requires Coherent(s, {})
      ensures dfg.Valid(target) && dfg.targetName == target.name && target.Valid()
    {
    }

    lemma AcceptedMaps(mapping: ModuloMapping, s: Snapshot)
      requires mapping.ii == ii && mapping.targetName == dfg.targetName == target.name
      requires Lists(NodeKey, mapping.placements, s.placements) && Lists(EdgeKey, mapping.dependences, s.dependences)
      requires LegalMaps(dfg, target, ii, s.placements, s.dependences)
      ensures Legal(dfg, target, mapping)
    {
      assert LegalAs(dfg, target, mapping, s.placements, s.dependences);
    }

    lemma CompletedNow()
      requires mapping.Some? && mapping.value.ii == ii && Legal(dfg, target, mapping.value)
      ensures Completed()
    {
    }

    // Any unplaced node will do: legality does not depend on the choice.
    method SelectNode() returns (node: nat)
      requires Coherent(Snapshot(placements, dependences, table.owners), {}) && |placements| < |dfg.nodes|
      ensures dfg.HasNode(node) && node !in placements
    {
      SomeUnplaced(Snapshot(placements, dependences, table.owners));
      var i :| 0 <= i < |dfg.nodes| && dfg.nodes[i].id !in placements;
      assert dfg.HasNode(dfg.nodes[i].id);
      return dfg.nodes[i].id;
    }

    lemma SomeUnplaced(s: Snapshot)
      requires Coherent(s, {})
      ensures |s.placements| <= |dfg.nodes|
      ensures |s.placements| == |dfg.nodes| ==> s.placements.Keys == dfg.NodeIds()
      ensures |s.placements| < |dfg.nodes| ==> exists i :: 0 <= i < |dfg.nodes| && dfg.nodes[i].id !in s.placements
    {
      hide Holds, Claims, TargetModel.Valid, PartsLegal, ClosedEdges, ResourceModel.Valid;
      Builder.DistinctCount(NodeId, dfg.nodes, dfg.NodeIds());
      SubsetCount(s.placements.Keys, dfg.NodeIds());
      if |s.placements| < |dfg.nodes| {
        var n :| n in dfg.NodeIds() && n !in s.placements.Keys;
      }
    }

    static lemma SubsetCount(a: set<nat>, b: set<nat>)
      requires a <= b
      ensures |a| <= |b| && (|a| == |b| ==> a == b)
      ensures |a| < |b| ==> exists x :: x in b && x !in a
    {
      assert b == a + (b - a);
      if a != b {
        var x :| x in b - a;
        assert |b - a| > 0;
      }
    }

    // Every compatible tile in every slot.
    method Candidates(node: nat) returns (candidates: set<(TileCoord, nat)>)
      requires dfg.HasNode(node)
      ensures forall c :: c in candidates <==> target.TileSupports(c.0, dfg.Node(node).operation) && c.1 < ii
      ensures |candidates| == ii * |SupportingTiles(target, dfg.Node(node).operation)|
    {
      var tiles := target.CompatibleTiles(dfg.Node(node).operation);
      TilesCounted(target, dfg.Node(node).operation, tiles);
      candidates := {};
      for t := 0 to |tiles|
        invariant forall c :: c in candidates <==> c.0 in tiles[..t] && c.1 < ii
      {
        for slot := 0 to ii
          invariant forall c :: c in candidates <==>
            (c.0 in tiles[..t] && c.1 < ii) || (c.0 == tiles[t] && c.1 < slot)
        {
          candidates := candidates + {(tiles[t], slot)};
        }
      }
      assert tiles[..|tiles|] == tiles;
      PairsCounted(tiles, ii, candidates);
    }

    static lemma {:induction false} PairsCounted(tiles: seq<TileCoord>, n: nat, pairs: set<(TileCoord, nat)>)
      requires forall i, j :: 0 <= i < j < |tiles| ==> tiles[i] != tiles[j]
      requires forall c :: c in pairs <==> c.0 in tiles && c.1 < n
      ensures |pairs| == n * |tiles|
    {
      if tiles == [] {
        assert pairs == {};
      } else {
        var others, row := FirstRow(tiles, n, pairs);
        PairsCounted(tiles[1..], n, others);
        SlotsCounted(tiles[0], n, row);
        hide *;
        OneMoreRow(n, |tiles[1..]|);
      }
    }

    static lemma OneMoreRow(n: nat, rows: nat)
      ensures n * (rows + 1) == n * rows + n
    {
    }

    static lemma FirstRow(tiles: seq<TileCoord>, n: nat, pairs: set<(TileCoord, nat)>)
      returns (others: set<(TileCoord, nat)>, row: set<(TileCoord, nat)>)
      requires tiles != [] && forall j :: 0 < j < |tiles| ==> tiles[0] != tiles[j]
      requires forall c :: c in pairs <==> c.0 in tiles && c.1 < n
      ensures forall c :: c in others <==> c.0 in tiles[1..] && c.1 < n
      ensures forall c :: c in row <==> c.0 == tiles[0] && c.1 < n
      ensures |pairs| == |others| + |row|
    {
      assert tiles == [tiles[0]] + tiles[1..];
      row := set c | c in pairs && c.0 == tiles[0];
      others := pairs - row;
      assert pairs == others + row;
    }

    static lemma {:induction false} SlotsCounted(tile: TileCoord, n: nat, pairs: set<(TileCoord, nat)>)
      requires forall c :: c in pairs <==> c.0 == tile && c.1 < n
      ensures |pairs| == n
    {
      if n > 0 {
        assert (tile, n - 1) in pairs;
        SlotsCounted(tile, n - 1, pairs - {(tile, n - 1)});
      } else {
        assert pairs == {};
      }
    }

    // A valid graph has a tile for each of its nodes.
    lemma SomeCandidate(s: Snapshot, node: nat, candidates: set<(TileCoord, nat)>)
      requires Coherent(s, {}) && dfg.HasNode(node)
      requires forall c :: c in candidates <==> target.TileSupports(c.0, dfg.Node(node).operation) && c.1 < ii
      ensures candidates != {}
    {
      hide Holds, Claims, TargetModel.Valid, PartsLegal, ClosedEdges, ResourceModel.Valid;
      assert NodeMatchesTarget(dfg.Node(node), target);
      var row, col :| 0 <= row < target.rows && 0 <= col < target.cols &&
                      target.TileSupports(TileCoord(row, col), dfg.Node(node).operation);
      assert (TileCoord(row, col), 0) in candidates;
    }

    // Their number lies between the fewest and the most any node has.
    lemma CandidatesBetween(node: nat)
      requires dfg.HasNode(node)
      ensures LeastTries(dfg, target, ii) <= ii * |SupportingTiles(target, dfg.Node(node).operation)|
                                          <= ii * MostTiles(target, dfg.nodes)
    {
      hide SupportingTiles;
      TilesBetween(target, dfg.nodes, dfg.Node(node));
      var own := |SupportingTiles(target, dfg.Node(node).operation)|;
      ProductGrows(FewestTiles(target, dfg.nodes), own, ii);
      ProductGrows(own, MostTiles(target, dfg.nodes), ii);
    }

    // The candidates are tried in some order; a failure of any kind leaves the state as it was found.
    method Search(depth: nat) returns (outcome: SearchOutcome)
      requires Coherent(Snapshot(placements, dependences, table.owners), {}) && Within(stats, limits)
      requires depth == |placements| <= |dfg.nodes| && stats.maxSearchDepth <= |dfg.nodes|
      modifies this`placements, this`dependences, this`mapping, this`stats, table
      ensures stats.maxSearchDepth <= |dfg.nodes| && Sane(outcome, checked)
      ensures outcome == RouteBudgetExceeded ==> TightRouting(routeOptions, target, ii)
      ensures outcome == InternalError(RouteSearchFailed) ==> LateRouting(dfg, target, ii)
      ensures Paid(old(stats), stats, limits, outcome, SearchCost(|dfg.nodes| - depth), SearchTries(|dfg.nodes| - depth),
                   |dfg.nodes| - depth)
      ensures outcome == Success ==> Completed()
      ensures outcome != Success ==>
        placements == old(placements) && dependences == old(dependences) && table.owners == old(table.owners)
      ensures outcome == Exhausted ==>
        Goal().DeadEnd(|dfg.nodes| - depth, Snapshot(old(placements), old(dependences), old(table.owners)))
      decreases |dfg.nodes| - depth, 2
    {
      hide *;
      AboutOutcomes();
      ghost var before, left := Snapshot(placements, dependences, table.owners), |dfg.nodes| - depth;
      ghost var start := stats;
      SomeUnplaced(before);
      AboutGoal(before, {});
      Deeper(stats, limits, if depth > stats.maxSearchDepth then depth else stats.maxSearchDepth);
      stats := stats.(maxSearchDepth := if depth > stats.maxSearchDepth then depth else stats.maxSearchDepth);
      if |placements| == |dfg.nodes| {
        outcome := Complete();
        NothingPlaced(start, stats.maxSearchDepth, limits, outcome);
        AboutSearchCost(1);
        if outcome == Exhausted {
          Goal().NothingLeft(before);
        }
        return;
      }
      AboutSearchCost(left);
      ghost var width, unit := ii * MostTiles(target, dfg.nodes), OneTry(SearchCost(left - 1), |dfg.edges|);
      var node := SelectNode();
      var remaining := Candidates(node);
      SomeCandidate(before, node, remaining);
      CandidatesBetween(node);
      ghost var all, tried := |remaining|, 0;
      NoneTried(start, stats.maxSearchDepth, limits, unit);
      while remaining != {}
        invariant forall tile, slot: nat | target.TileSupports(tile, dfg.Node(node).operation) && slot < ii ::
          (tile, slot) in remaining || Goal().Refused(left, before, NodePlacement(node, tile, slot))
        invariant Tried(start, stats, limits, unit, tried) && tried + |remaining| == all
        invariant placements == before.placements && dependences == before.dependences && table.owners == before.owners
        invariant forall c :: c in remaining ==> target.TileSupports(c.0, dfg.Node(node).operation) && c.1 < ii
        invariant Within(stats, limits) && stats.maxSearchDepth <= |dfg.nodes|
        decreases remaining
      {
        var candidate :| candidate in remaining;
        remaining := remaining - {candidate};
        ghost var now := stats;
        var finished;
        finished, outcome := TryOne(node, candidate.0, candidate.1, depth);
        SearchBudget.TriedOneMore(start, now, stats, limits, outcome, unit, tried, width, SearchTries(left), left);
        if finished {
          return;
        }
        tried := tried + 1;
      }
      AllTried(start, stats, limits, unit, tried, width, SearchTries(left), left);
      Goal().DeadEndSince(left, before, node);
      outcome := Exhausted;
    }

    static lemma Deeper(stats: Stats, limits: SearchLimits, depth: nat)
      requires Within(stats, limits)
      ensures Within(stats.(maxSearchDepth := depth), limits)
    {
    }

    static lemma Spend(stats: Stats, limits: SearchLimits)
      requires Within(stats, limits)
      ensures stats.nodeCandidateAttempts < limits.nodeCandidateAttempts ==>
        Within(stats.(nodeCandidateAttempts := stats.nodeCandidateAttempts + 1), limits)
      ensures stats.backtracks < limits.backtracks ==>
        Within(stats.(backtracks := stats.backtracks + 1), limits)
    {
    }

    // One turn of the candidate loop; `finished` says whether the search returns with this outcome.
    method TryOne(node: nat, tile: TileCoord, slot: nat, depth: nat) returns (finished: bool, outcome: SearchOutcome)
      requires Coherent(Snapshot(placements, dependences, table.owners), {}) && Within(stats, limits)
      requires depth == |placements| < |dfg.nodes| && stats.maxSearchDepth <= |dfg.nodes|
      requires dfg.HasNode(node) && node !in placements && slot < ii
      requires target.TileSupports(tile, dfg.Node(node).operation)
      modifies this`placements, this`dependences, this`mapping, this`stats, table
      ensures stats.maxSearchDepth <= |dfg.nodes| && Sane(outcome, checked)
      ensures outcome == RouteBudgetExceeded ==> TightRouting(routeOptions, target, ii)
      ensures outcome == InternalError(RouteSearchFailed) ==> LateRouting(dfg, target, ii)
      ensures outcome == Success ==> Completed()
      ensures finished <==> outcome != Exhausted
      ensures !finished ==>
        Goal().Refused(|dfg.nodes| - depth, Snapshot(old(placements), old(dependences), old(table.owners)),
                NodePlacement(node, tile, slot))
      ensures Paid(old(stats), stats, limits, outcome, OneTry(SearchCost(|dfg.nodes| - depth - 1), |dfg.edges|), 1,
                   |dfg.nodes| - depth)
      ensures outcome != Success ==>
        placements == old(placements) && dependences == old(dependences) && table.owners == old(table.owners)
      decreases |dfg.nodes| - depth, 1
    {
      hide *;
      Spend(stats, limits);
      ghost var start, below := stats, SearchCost(|dfg.nodes| - depth - 1);
      ghost var before, left := Snapshot(placements, dependences, table.owners), |dfg.nodes| - depth;
      ghost var placement := NodePlacement(node, tile, slot);
      AboutGoal(before, {});
      if stats.nodeCandidateAttempts >= limits.nodeCandidateAttempts {
        EnteringIsSane(PerIIBudgetExceeded, checked);
        NoAttemptLeft(stats, limits, below, |dfg.edges|, left);
        return true, PerIIBudgetExceeded;
      }
      stats := stats.(nodeCandidateAttempts := stats.nodeCandidateAttempts + 1);
      var delta;
      outcome, delta := EnterOrWithdraw(node, tile, slot, left);
      ghost var entered := stats;
      SameDepth(start.(nodeCandidateAttempts := start.nodeCandidateAttempts + 1), entered);
      if outcome != Success {
        EnteringIsSane(outcome, checked);
        OnlyTried(start, stats, limits, outcome, below, |dfg.edges|, left);
        finished := outcome != Exhausted;
        return;
      }
      OneMorePlaced(before.placements, placement);
      finished, outcome := Descend(depth, placement, delta, before);
      TriedAndDescended(start, entered, stats, limits, outcome, below, |dfg.edges|, left - 1);
    }

    static lemma OneMorePlaced(placed: map<nat, NodePlacement>, placement: NodePlacement)
      requires placement.node !in placed
      ensures |placed[placement.node := placement]| == |placed| + 1
    {
      assert placed[placement.node := placement].Keys == placed.Keys + {placement.node};
      assert |placed.Keys| == |placed|;
    }

    // Enters the candidate; what a refused one left behind is taken back.
    method EnterOrWithdraw(node: nat, tile: TileCoord, slot: nat, ghost left: nat)
      returns (outcome: SearchOutcome, delta: CandidateDelta)
      requires Coherent(Snapshot(placements, dependences, table.owners), {}) && Within(stats, limits) && left > 0
      requires dfg.HasNode(node) && node !in placements && slot < ii
      requires target.TileSupports(tile, dfg.Node(node).operation)
      modifies this`placements, this`dependences, this`stats, table
      ensures Within(stats, limits) && Entering(outcome) && OnlyRouted(old(stats), stats)
      ensures stats.routeSearchCalls <= old(stats.routeSearchCalls) + |dfg.edges|
      ensures outcome == PerIIBudgetExceeded ==>
        limits.routeSearchCalls <= stats.routeSearchCalls < old(stats.routeSearchCalls) + |dfg.edges|
      ensures outcome == RouteBudgetExceeded ==> TightRouting(routeOptions, target, ii)
      ensures outcome == InternalError(RouteSearchFailed) ==> LateRouting(dfg, target, ii)
      ensures outcome == Success ==>
        && Coherent(Snapshot(placements, dependences, table.owners), {})
        && placements == old(placements)[node := NodePlacement(node, tile, slot)]
        && LeadsBack(delta, Snapshot(placements, dependences, table.owners),
                     Snapshot(old(placements), old(dependences), old(table.owners)))
      ensures outcome != Success ==>
        placements == old(placements) && dependences == old(dependences) && table.owners == old(table.owners)
      ensures outcome == Exhausted ==>
        Goal().Refused(left, Snapshot(old(placements), old(dependences), old(table.owners)), NodePlacement(node, tile, slot))
    {
      hide *;
      ghost var before, placement := Snapshot(placements, dependences, table.owners), NodePlacement(node, tile, slot);
      AboutGoal(before, {});
      var entered;
      outcome, entered := TryCandidate(node, tile, slot);
      delta := if entered.None? then CandidateDelta(node, Delta(Owner(NodeOwner, node), []), [], []) else entered.value;
      if outcome == Success {
        return;
      }
      if entered.None? {
        Goal().RefusedNow(left, before, placement);
        return;
      }
      if outcome == Exhausted {
        Goal().RefusedSince(left, before, placement, Snapshot(placements, dependences, table.owners), delta);
      }
      Rollback(delta, before);
    }

    // The candidate is in place: the search goes on below it and takes it back unless that succeeds.
    method Descend(depth: nat, ghost placement: NodePlacement, delta: CandidateDelta, ghost before: Snapshot)
      returns (finished: bool, outcome: SearchOutcome)
      requires Coherent(Snapshot(placements, dependences, table.owners), {}) && Within(stats, limits)
      requires |placements| == depth + 1 <= |dfg.nodes| && stats.maxSearchDepth <= |dfg.nodes|
      requires LeadsBack(delta, Snapshot(placements, dependences, table.owners), before)
      requires placements == before.placements[placement.node := placement]
      modifies this`placements, this`dependences, this`mapping, this`stats, table
      ensures stats.maxSearchDepth <= |dfg.nodes| && Sane(outcome, checked)
      ensures outcome == RouteBudgetExceeded ==> TightRouting(routeOptions, target, ii)
      ensures outcome == InternalError(RouteSearchFailed) ==> LateRouting(dfg, target, ii)
      ensures var below := SearchCost(|dfg.nodes| - depth - 1);
        Paid(old(stats), stats, limits, outcome, below.(backtracks := below.backtracks + 1), 0, |dfg.nodes| - depth - 1)
      ensures outcome == Success ==> Completed()
      ensures outcome != Success ==>
        placements == before.placements && dependences == before.dependences && table.owners == before.owners
      ensures finished <==> outcome != Exhausted
      ensures !finished ==> Goal().Refused(|dfg.nodes| - depth, before, placement)
      decreases |dfg.nodes| - depth, 0
    {
      hide *;
      AboutOutcomes();
      ghost var now := Snapshot(placements, dependences, table.owners);
      ghost var start, left := stats, |dfg.nodes| - depth - 1;
      ghost var below := SearchCost(left);
      AboutGoal(now, {});
      outcome := Search(depth + 1);
      AboutPaid(start, stats, limits, outcome, below, SearchTries(left), left);
      if outcome != Exhausted {
        PassedOn(start, stats, limits, outcome, below, SearchTries(left), left);
      }
      if outcome == Success {
        return true, Success;
      }
      if outcome == Exhausted {
        SteppedBack(start, stats, limits, below, SearchTries(left), left);
        Goal().RefusedSince(|dfg.nodes| - depth, before, placement, now, delta);
      }
      Rollback(delta, before);
      if outcome != Exhausted {
        finished := true;
        return;
      }
      Spend(stats, limits);
      if stats.backtracks >= limits.backtracks {
        return true, PerIIBudgetExceeded;
      }
      stats := stats.(backtracks := stats.backtracks + 1);
      finished := false;
    }
  }
}
