// What a legal mapping comes to in plain terms: which network, which way, how far, where an operation may sit, how far apart.

module PlainLegality {
  import opened Wrappers
  import opened Mesh
  import opened Target
  import opened Resources
  import opened Reservation
  import opened Mapping
  import opened Ordering

  // ----- Where links lead -----

  /** A tile lacks a neighbour exactly on that side's border, and otherwise the neighbour is the next tile that way. */
  lemma LinksLeadOneTile(tile: TileCoord, direction: Direction, rows: nat, cols: nat)
    requires tile.row < rows && tile.col < cols
    ensures Neighbor(tile, direction, rows, cols).None? <==>
      || (direction == North && tile.row == 0) || (direction == South && tile.row == rows - 1)
      || (direction == West && tile.col == 0) || (direction == East && tile.col == cols - 1)
    ensures Neighbor(tile, direction, rows, cols).Some? ==>
      var next := Neighbor(tile, direction, rows, cols).value;
      && next.row - tile.row == (if direction == South then 1 else if direction == North then -1 else 0)
      && next.col - tile.col == (if direction == East then 1 else if direction == West then -1 else 0)
  {
  }

  function Steps(actions: seq<TransportAction>, direction: Direction): nat {
    if actions == [] then 0
    else
      var last := actions[|actions| - 1];
      Steps(actions[..|actions| - 1], direction) + (if last.LinkStep? && last.direction == direction then 1 else 0)
  }

  function AllSteps(actions: seq<TransportAction>): nat {
    Steps(actions, North) + Steps(actions, South) + Steps(actions, East) + Steps(actions, West)
  }

  // How many links a value must cross at least.
  function Distance(a: TileCoord, b: TileCoord): nat {
    (if a.row < b.row then b.row - a.row else a.row - b.row) + (if a.col < b.col then b.col - a.col else a.col - b.col)
  }

  /** Steps south less steps north lead down the rows, steps east less steps west along the columns, and each takes its time. */
  lemma {:induction false} NetSteps(ctx: RouteContext, actions: seq<TransportAction>, start: Availability)
    requires Follow(ctx, actions, start).Some?
    ensures var end := Follow(ctx, actions, start).value;
      && end.tile.row - start.tile.row == Steps(actions, South) - Steps(actions, North)
      && end.tile.col - start.tile.col == Steps(actions, East) - Steps(actions, West)
      && end.elapsed >= start.elapsed + ctx.target.hopLatency * AllSteps(actions)
  {
    if actions != [] {
      var init, last := actions[..|actions| - 1], actions[|actions| - 1];
      var here := Follow(ctx, init, start);
      assert here.Some? && Follow(ctx, actions, start) == Perform(ctx, last, here.value);
      hide *;
      NetSteps(ctx, init, start);
      OneStep(ctx, last, here.value);
      OneStepMore(actions);
      AllStepsMore(actions);
      OneMoreTime(ctx.target.hopLatency, AllSteps(init));
    } else {
      assert AllSteps(actions) == 0;
    }
  }

  lemma OneStepMore(actions: seq<TransportAction>)
    requires actions != []
    ensures var last := actions[|actions| - 1];
      forall d: Direction ::
        Steps(actions, d) == Steps(actions[..|actions| - 1], d) + (if last.LinkStep? && last.direction == d then 1 else 0)
  {
  }

  lemma AllStepsMore(actions: seq<TransportAction>)
    requires actions != []
    ensures AllSteps(actions) == AllSteps(actions[..|actions| - 1]) + if actions[|actions| - 1].LinkStep? then 1 else 0
  {
  }

  lemma OneMoreTime(k: nat, n: nat)
    ensures k * (n + 1) == k * n + k
  {
  }

  lemma OneStep(ctx: RouteContext, action: TransportAction, here: Availability)
    requires Perform(ctx, action, here).Some?
    ensures var next := Perform(ctx, action, here).value;
      && next.tile.row - here.tile.row ==
         (if action.LinkStep? && action.direction == South then 1
          else if action.LinkStep? && action.direction == North then -1 else 0)
      && next.tile.col - here.tile.col ==
         (if action.LinkStep? && action.direction == East then 1
          else if action.LinkStep? && action.direction == West then -1 else 0)
      && next.elapsed >= here.elapsed + (if action.LinkStep? then ctx.target.hopLatency else 0)
  {
    if action.LinkStep? && InArray(action.source, ctx.target.rows, ctx.target.cols) {
      LinksLeadOneTile(action.source, action.direction, ctx.target.rows, ctx.target.cols);
    }
  }

  /** So no transport is faster than a straight way over the mesh. */
  lemma TakesItsDistance(ctx: RouteContext, actions: seq<TransportAction>, start: Availability)
    requires Follow(ctx, actions, start).Some?
    ensures var end := Follow(ctx, actions, start).value;
      && AllSteps(actions) >= Distance(start.tile, end.tile)
      && end.elapsed >= start.elapsed + ctx.target.hopLatency * Distance(start.tile, end.tile)
  {
    hide Follow, Steps;
    NetSteps(ctx, actions, start);
    Smaller(ctx.target.hopLatency, Distance(start.tile, Follow(ctx, actions, start).value.tile), AllSteps(actions));
  }

  lemma Smaller(k: nat, a: nat, b: nat)
    requires a <= b
    ensures k * a <= k * b
  {
    assert k * b == k * a + k * (b - a);
  }

  // ----- Which network -----

  /** Predicate values travel on the predicate network, data values on the other. */
  ghost predicate OnItsNetwork(edge: TargetEdge, actions: seq<TransportAction>) {
    forall i :: 0 <= i < |actions| ==> (actions[i].domain == Predicate <==> edge.kind == PredicateEdge)
  }

  lemma {:induction false} OneDomain(ctx: RouteContext, actions: seq<TransportAction>, start: Availability)
    requires Follow(ctx, actions, start).Some?
    ensures forall i :: 0 <= i < |actions| ==> actions[i].domain == ctx.domain
  {
    if actions != [] {
      OneDomain(ctx, actions[..|actions| - 1], start);
    }
  }

  lemma {:induction false} LinksInDomain(ctx: RouteContext, actions: seq<TransportAction>)
    requires 0 < ctx.ii
    ensures forall k :: 0 <= k < |LinksOf(ctx, actions)| ==>
      LinksOf(ctx, actions)[k].Link? && LinksOf(ctx, actions)[k].domain == ctx.domain
  {
    if actions != [] {
      LinksInDomain(ctx, actions[..|actions| - 1]);
    }
  }

  // ----- Where an operation may sit -----

  /** Memory operations sit on tiles with a load/store unit, others where the tile's own list, or else the default, has them. */
  ghost predicate Allowed(target: TargetModel, ii: nat, node: TargetNode, p: NodePlacement) {
    && p.node == node.id && p.issueSlot < ii && p.tile.row < target.rows && p.tile.col < target.cols
    && node.operation in target.operations
    && (target.operations[node.operation].executionClass == LSUClass ==> p.tile in target.lsuTiles)
    && (target.operations[node.operation].executionClass == FUClass && p.tile in target.tileOverrides ==>
          node.operation in target.tileOverrides[p.tile])
    && (target.operations[node.operation].executionClass == FUClass && p.tile !in target.tileOverrides ==>
          node.operation in target.defaultFuOperations)
  }

  /** A tile can take an operation exactly where it is allowed. */
  lemma SupportIsAllowance(target: TargetModel, ii: nat, node: TargetNode, p: NodePlacement)
    requires p.node == node.id && p.issueSlot < ii
    ensures target.TileSupports(p.tile, node.operation) <==> Allowed(target, ii, node, p)
  {
  }

  /** A node belongs to the target exactly when it agrees with its operation and some tile of the array can take it. */
  lemma MatchesExactly(node: TargetNode, target: TargetModel)
    ensures NodeMatchesTarget(node, target) <==>
      && node.operation in target.operations
      && target.operations[node.operation] ==
         Operation(node.executionClass, node.issueOccupancy, node.resultLatency, node.outputReady)
      && exists tile :: Allowed(target, 1, node, NodePlacement(node.id, tile, 0))
  {
    forall tile: TileCoord
      ensures target.TileSupports(tile, node.operation) <==> Allowed(target, 1, node, NodePlacement(node.id, tile, 0))
    {
      SupportIsAllowance(target, 1, node, NodePlacement(node.id, tile, 0));
    }
    if tile :| Allowed(target, 1, node, NodePlacement(node.id, tile, 0)) {
      assert target.TileSupports(TileCoord(tile.row, tile.col), node.operation);
    }
    if row, col :| 0 <= row < target.rows && 0 <= col < target.cols &&
                   target.TileSupports(TileCoord(row, col), node.operation) {
      assert Allowed(target, 1, node, NodePlacement(node.id, TileCoord(row, col), 0));
    }
  }

  // ----- How far apart -----

  /** Memory edges keep the target's separation for their dependence; value edges wait for their producer and their way. */
  ghost predicate KeptApart(dfg: TargetDFG, target: TargetModel, edge: TargetEdge, placements: map<nat, NodePlacement>,
                            d: MappedDependence)
  {
    && d.edge == edge.id && d.kind == edge.kind
    && (edge.kind == MemoryEdge ==>
          && d.transport.None?
          && (edge.dependence == RAW ==> d.requiredSeparation == target.rawSeparation)
          && (edge.dependence == WAR ==> d.requiredSeparation == target.warSeparation)
          && (edge.dependence == WAW ==> d.requiredSeparation == target.wawSeparation))
    && (edge.kind != MemoryEdge ==>
          && d.transport.Some? && edge.src in placements && edge.dst in placements
          && dfg.HasNode(edge.src) && dfg.Node(edge.src).outputReady.Some?
          && (d.transport.value.domain == Predicate <==> edge.kind == PredicateEdge)
          && OnItsNetwork(edge, d.transport.value.actions)
          && AllSteps(d.transport.value.actions) >= Distance(placements[edge.src].tile, placements[edge.dst].tile)
          && d.requiredSeparation >= dfg.Node(edge.src).outputReady.value +
               target.hopLatency * Distance(placements[edge.src].tile, placements[edge.dst].tile)
          && d.requiredSeparation > dfg.Node(edge.src).outputReady.value)
  }

  // The links an edge claims are those of its network.
  ghost predicate ClaimsItsNetwork(edge: TargetEdge, claim: seq<Resource>) {
    forall k :: 0 <= k < |claim| ==> claim[k].Link? && (claim[k].domain == Predicate <==> edge.kind == PredicateEdge)
  }

  lemma {:induction false} FollowForward(ctx: RouteContext, actions: seq<TransportAction>, start: Availability)
    requires Follow(ctx, actions, start).Some? && 0 < ctx.target.hopLatency
    ensures Follow(ctx, actions, start).value.elapsed >= start.elapsed + |actions|
  {
    if actions != [] {
      FollowForward(ctx, actions[..|actions| - 1], start);
    }
  }

  lemma LegalIsKeptApart(dfg: TargetDFG, target: TargetModel, ii: nat, edge: TargetEdge,
                         placements: map<nat, NodePlacement>, d: MappedDependence)
    requires DependenceLegal(dfg, target, ii, edge, placements, d)
    ensures KeptApart(dfg, target, edge, placements, d)
  {
    if edge.kind != MemoryEdge {
      var ctx := ContextFor(target, ii, edge.kind, placements[edge.src]);
      var actions := d.transport.value.actions;
      var start := Availability(placements[edge.src].tile, dfg.Node(edge.src).outputReady.value);
      hide Follow, Distance, Steps, LinksOf;
      TakesItsDistance(ctx, actions, start);
      OneDomain(ctx, actions, start);
      FollowForward(ctx, actions, start);
    }
  }

  lemma ClaimIsOnNetwork(dfg: TargetDFG, target: TargetModel, ii: nat, placements: map<nat, NodePlacement>,
                         dependences: map<nat, MappedDependence>, edge: TargetEdge)
    requires dfg.UniqueIds() && edge in dfg.edges
    ensures ClaimsItsNetwork(edge, ClaimOf(dfg, target, ii, placements, dependences, Owner(EdgeOwner, edge.id)))
  {
    dfg.EdgeUnique(edge);
    if ii > 0 && edge.id in dependences && dependences[edge.id].transport.Some? && edge.src in placements {
      LinksInDomain(ContextFor(target, ii, edge.kind, placements[edge.src]), dependences[edge.id].transport.value.actions);
    }
  }

  // ----- All of it -----

  ghost predicate Plain(dfg: TargetDFG, target: TargetModel, ii: nat, placements: map<nat, NodePlacement>,
                        dependences: map<nat, MappedDependence>)
  {
    && (forall node :: node in dfg.nodes ==> node.id in placements && Allowed(target, ii, node, placements[node.id]))
    && (forall edge :: edge in dfg.edges ==>
          edge.id in dependences && KeptApart(dfg, target, edge, placements, dependences[edge.id]))
    && (forall edge :: edge in dfg.edges ==>
          ClaimsItsNetwork(edge, ClaimOf(dfg, target, ii, placements, dependences, Owner(EdgeOwner, edge.id))))
  }

  /** Every legal mapping keeps all of it. */
  lemma LegalIsPlain(dfg: TargetDFG, target: TargetModel, ii: nat, placements: map<nat, NodePlacement>,
                     dependences: map<nat, MappedDependence>)
    requires dfg.UniqueIds() && LegalMaps(dfg, target, ii, placements, dependences)
    ensures Plain(dfg, target, ii, placements, dependences)
  {
    hide Allowed, KeptApart, ClaimsItsNetwork, NodeLegal, DependenceLegal, ClaimsDisjoint, ClaimOf;
    forall node | node in dfg.nodes
      ensures node.id in placements && Allowed(target, ii, node, placements[node.id])
    {
      NodeListed(dfg, node);
      LegalIsAllowed(target, ii, node, placements[node.id]);
    }
    forall edge | edge in dfg.edges
      ensures edge.id in dependences && KeptApart(dfg, target, edge, placements, dependences[edge.id])
      ensures ClaimsItsNetwork(edge, ClaimOf(dfg, target, ii, placements, dependences, Owner(EdgeOwner, edge.id)))
    {
      EdgeListed(dfg, edge);
      LegalIsKeptApart(dfg, target, ii, edge, placements, dependences[edge.id]);
      ClaimIsOnNetwork(dfg, target, ii, placements, dependences, edge);
    }
  }

  lemma LegalIsAllowed(target: TargetModel, ii: nat, node: TargetNode, p: NodePlacement)
    requires NodeLegal(target, ii, node, p)
    ensures Allowed(target, ii, node, p)
  {
    SupportIsAllowance(target, ii, node, p);
  }

  lemma NodeListed(dfg: TargetDFG, node: TargetNode)
    requires node in dfg.nodes
    ensures node.id in dfg.NodeIds()
  {
    var i :| 0 <= i < |dfg.nodes| && dfg.nodes[i] == node;
  }

  lemma EdgeListed(dfg: TargetDFG, edge: TargetEdge)
    requires edge in dfg.edges
    ensures edge.id in dfg.EdgeIds()
  {
    var i :| 0 <= i < |dfg.edges| && dfg.edges[i] == edge;
  }

  /** What a mapping says, and says plainly. */
  ghost predicate InPlainTerms(dfg: TargetDFG, target: TargetModel, mapping: ModuloMapping) {
    exists placements, dependences ::
      && Lists(NodeKey, mapping.placements, placements) && Lists(EdgeKey, mapping.dependences, dependences)
      && Plain(dfg, target, mapping.ii, placements, dependences)
  }

  lemma LegalInPlainTerms(dfg: TargetDFG, target: TargetModel, mapping: ModuloMapping)
    requires dfg.UniqueIds() && Legal(dfg, target, mapping)
    ensures InPlainTerms(dfg, target, mapping)
  {
    var placements, dependences :| LegalAs(dfg, target, mapping, placements, dependences);
    hide Plain;
    LegalIsPlain(dfg, target, mapping.ii, placements, dependences);
  }
}
