// Modulo mappings and what makes one legal, stated without reference to any algorithm.

module Mapping {
  import opened Wrappers
  import opened Mesh
  import opened Target
  import opened Resources
  import opened Reservation
  import opened Ordering

  datatype NodePlacement = NodePlacement(node: nat, tile: TileCoord, issueSlot: nat)

  datatype TransportAction =
    | LinkStep(domain: NetworkDomain, source: TileCoord, direction: Direction, elapsed: U32)
    | VirtualHold(domain: NetworkDomain, tile: TileCoord, capture: U32, release: U32)

  datatype TransportPlan = TransportPlan(
    edge: nat,
    domain: NetworkDomain,
    actions: seq<TransportAction>,
    requiredSeparation: U32)

  datatype MappedDependence = MappedDependence(
    edge: nat,
    kind: EdgeKind,
    requiredSeparation: U32,
    transport: Option<TransportPlan>)

  datatype ModuloMapping = ModuloMapping(
    targetName: string,
    ii: nat,
    placements: seq<NodePlacement>,
    dependences: seq<MappedDependence>)

  // ----- Transport -----

  /** Where and when a value in transit can next be used. */
  datatype Availability = Availability(tile: TileCoord, elapsed: nat)

  /** What a route needs to know about its network and its producer's issue slot. */
  datatype RouteContext = RouteContext(target: TargetModel, ii: nat, domain: NetworkDomain, issueSlot: nat) {
    ghost predicate Valid() {
      0 < ii && issueSlot < ii && 0 < target.hopLatency
    }

    function SlotAt(elapsed: nat): nat
      requires 0 < ii
    {
      Advance(issueSlot, elapsed, ii)
    }

    function LinkAt(tile: TileCoord, direction: Direction, elapsed: nat): Resource
      requires 0 < ii
    {
      Link(domain, tile, direction, SlotAt(elapsed))
    }

    function Onward(tile: TileCoord, direction: Direction): Option<TileCoord> {
      if target.meshLinks then Neighbor(tile, direction, target.rows, target.cols) else None
    }
  }

  // One action continues a transport only from exactly where and when the value is.
  function Perform(ctx: RouteContext, action: TransportAction, here: Availability): Option<Availability> {
    if action.domain != ctx.domain then None
    else match action
      case LinkStep(_, source, direction, elapsed) =>
        var next := ctx.Onward(source, direction);
        if source == here.tile && elapsed == here.elapsed && next.Some?
        then Some(Availability(next.value, elapsed + ctx.target.hopLatency))
        else None
      case VirtualHold(_, tile, capture, release) =>
        if tile == here.tile && capture == here.elapsed && capture < release
        then Some(Availability(tile, release))
        else None
  }

  function Follow(ctx: RouteContext, actions: seq<TransportAction>, start: Availability): Option<Availability> {
    if actions == [] then Some(start)
    else
      var here := Follow(ctx, actions[..|actions| - 1], start);
      if here.None? then None else Perform(ctx, actions[|actions| - 1], here.value)
  }

  // The link-slots a list of actions drives, in order.
  function LinksOf(ctx: RouteContext, actions: seq<TransportAction>): seq<Resource>
    requires 0 < ctx.ii
  {
    if actions == [] then []
    else
      var last := actions[|actions| - 1];
      LinksOf(ctx, actions[..|actions| - 1]) +
      (if last.LinkStep? then [ctx.LinkAt(last.source, last.direction, last.elapsed)] else [])
  }

  // A transport that really carries a value from `start` to tile `destination` in `separation` cycles.
  ghost predicate ValidRoute(ctx: RouteContext, actions: seq<TransportAction>, start: Availability,
                             destination: TileCoord, separation: nat)
    requires 0 < ctx.ii
  {
    && actions != []
    && Follow(ctx, actions, start) == Some(Availability(destination, separation))
    && Distinct(LinksOf(ctx, actions))
  }

  lemma FollowPrefix(ctx: RouteContext, actions: seq<TransportAction>, start: Availability, i: nat)
    requires i <= |actions|
    requires Follow(ctx, actions[..i], start).None?
    ensures Follow(ctx, actions, start).None?
    decreases |actions| - i
  {
    if i == |actions| {
      assert actions[..i] == actions;
    } else {
      assert actions[..i + 1][..i] == actions[..i];
      FollowPrefix(ctx, actions, start, i + 1);
    }
  }

  lemma LinksPrefix(ctx: RouteContext, actions: seq<TransportAction>, i: nat)
    requires 0 < ctx.ii && i <= |actions|
    ensures LinksOf(ctx, actions[..i]) <= LinksOf(ctx, actions)
    decreases |actions| - i
  {
    if i == |actions| {
      assert actions[..i] == actions;
    } else {
      assert actions[..i + 1][..i] == actions[..i];
      LinksPrefix(ctx, actions, i + 1);
    }
  }

  // Links of a transport that can be followed exist on the target.
  lemma LinksExist(ctx: RouteContext, actions: seq<TransportAction>, start: Availability)
    requires 0 < ctx.ii && Follow(ctx, actions, start).Some?
    ensures forall k :: 0 <= k < |LinksOf(ctx, actions)| ==> Exists(ctx.target, ctx.ii, LinksOf(ctx, actions)[k])
  {
    if actions != [] {
      LinksExist(ctx, actions[..|actions| - 1], start);
    }
  }

  // ----- Legality -----

  function ContextFor(target: TargetModel, ii: nat, kind: EdgeKind, producer: NodePlacement): RouteContext {
    RouteContext(target, ii, DomainOf(kind), producer.issueSlot)
  }

  ghost predicate NodeLegal(target: TargetModel, ii: nat, node: TargetNode, placement: NodePlacement) {
    && placement.node == node.id
    && placement.issueSlot < ii
    && target.TileSupports(placement.tile, node.operation)
    && target.operations[node.operation].issueOccupancy <= ii
  }

  // A routed value dependence between two placed nodes.
  ghost predicate PlanLegal(target: TargetModel, ii: nat, edge: TargetEdge, ready: nat,
                            producer: NodePlacement, consumer: NodePlacement, plan: TransportPlan)
  {
    && 0 < ii
    && 0 < target.hopLatency
    && plan.edge == edge.id
    && plan.domain == DomainOf(edge.kind)
    && ValidRoute(ContextFor(target, ii, edge.kind, producer), plan.actions,
                  Availability(producer.tile, ready), consumer.tile, plan.requiredSeparation)
  }

  ghost predicate DependenceLegal(dfg: TargetDFG, target: TargetModel, ii: nat, edge: TargetEdge,
                                  placements: map<nat, NodePlacement>, dependence: MappedDependence)
  {
    && dependence.edge == edge.id
    && dependence.kind == edge.kind
    && (if edge.kind == MemoryEdge then
          && dependence.transport.None?
          && dependence.requiredSeparation == target.MemorySeparation(edge.dependence)
        else
          && dependence.transport.Some?
          && edge.src in placements && edge.dst in placements
          && dfg.HasNode(edge.src)
          && dfg.Node(edge.src).outputReady.Some?
          && PlanLegal(target, ii, edge, dfg.Node(edge.src).outputReady.value,
                       placements[edge.src], placements[edge.dst], dependence.transport.value)
          && dependence.requiredSeparation == dependence.transport.value.requiredSeparation)
  }

  // What a node or an edge occupies under given placements and dependences.
  ghost function ClaimOf(dfg: TargetDFG, target: TargetModel, ii: nat,
                         placements: map<nat, NodePlacement>, dependences: map<nat, MappedDependence>,
                         owner: Owner): seq<Resource>
  {
    if ii == 0 then []
    else match owner.kind
      case NodeOwner =>
        if owner.id in placements && dfg.HasNode(owner.id) && dfg.Node(owner.id).operation in target.operations
        then Footprint(target.operations[dfg.Node(owner.id).operation],
                       placements[owner.id].tile, placements[owner.id].issueSlot, ii)
        else []
      case EdgeOwner =>
        if owner.id in dependences && dependences[owner.id].transport.Some? && dfg.HasEdge(owner.id) &&
           dfg.Edge(owner.id).src in placements
        then LinksOf(ContextFor(target, ii, dfg.Edge(owner.id).kind, placements[dfg.Edge(owner.id).src]),
                     dependences[owner.id].transport.value.actions)
        else []
  }

  // No modulo resource is claimed by two different owners.
  ghost predicate ClaimsDisjoint(dfg: TargetDFG, target: TargetModel, ii: nat,
                                 placements: map<nat, NodePlacement>, dependences: map<nat, MappedDependence>)
  {
    forall o1, o2, r |
      && r in ClaimOf(dfg, target, ii, placements, dependences, o1)
      && r in ClaimOf(dfg, target, ii, placements, dependences, o2)
      :: o1 == o2
  }

  ghost predicate LegalMaps(dfg: TargetDFG, target: TargetModel, ii: nat,
                            placements: map<nat, NodePlacement>, dependences: map<nat, MappedDependence>)
  {
    && 0 < ii
    && placements.Keys == dfg.NodeIds()
    && dependences.Keys == dfg.EdgeIds()
    && (forall node :: node in dfg.nodes ==> NodeLegal(target, ii, node, placements[node.id]))
    && (forall edge :: edge in dfg.edges ==>
          DependenceLegal(dfg, target, ii, edge, placements, dependences[edge.id]))
    && ClaimsDisjoint(dfg, target, ii, placements, dependences)
  }

  function NodeKey(placement: NodePlacement): nat {
    placement.node
  }

  function EdgeKey(dependence: MappedDependence): nat {
    dependence.edge
  }

  ghost predicate LegalAs(dfg: TargetDFG, target: TargetModel, mapping: ModuloMapping,
                          placements: map<nat, NodePlacement>, dependences: map<nat, MappedDependence>)
  {
    && mapping.targetName == target.name
    && Lists(NodeKey, mapping.placements, placements)
    && Lists(EdgeKey, mapping.dependences, dependences)
    && LegalMaps(dfg, target, mapping.ii, placements, dependences)
  }

  /** A complete, conflict-free modulo mapping of the graph onto the target. */
  ghost predicate Legal(dfg: TargetDFG, target: TargetModel, mapping: ModuloMapping) {
    exists placements, dependences :: LegalAs(dfg, target, mapping, placements, dependences)
  }
}
