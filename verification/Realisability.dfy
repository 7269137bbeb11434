// When the edges, or the nodes, still to be entered can be realised around what is already occupied.

module Realisability {
  import opened Wrappers
  import opened Mesh
  import opened Target
  import opened Resources
  import opened Reservation
  import opened Ordering
  import opened Mapping
  import opened Ledger

  ghost function Members<T>(s: seq<T>): set<T> {
    set x | x in s
  }

  // Edges from index k on can be routed one after another around the occupied resources.
  ghost predicate CanRealise(dfg: TargetDFG, target: TargetModel, ii: nat, placements: map<nat, NodePlacement>,
                             k: nat, occupied: set<Resource>)
    requires 0 < ii && k <= |dfg.edges|
    requires forall edge :: edge in dfg.edges ==> dfg.HasNode(edge.src) && edge.src in placements && edge.dst in placements
    decreases |dfg.edges| - k
  {
    k == |dfg.edges| ||
    (var edge := dfg.edges[k];
     if edge.kind == MemoryEdge then CanRealise(dfg, target, ii, placements, k + 1, occupied)
     else exists plan :: RoutesEdge(dfg, target, ii, edge, placements, plan) &&
                         Members(PlanLinks(target, ii, edge, placements, plan)) !! occupied &&
                         CanRealise(dfg, target, ii, placements, k + 1,
                                    occupied + Members(PlanLinks(target, ii, edge, placements, plan))))
  }

  ghost predicate RoutesEdge(dfg: TargetDFG, target: TargetModel, ii: nat, edge: TargetEdge,
                             placements: map<nat, NodePlacement>, plan: TransportPlan)
    requires dfg.HasNode(edge.src) && edge.src in placements && edge.dst in placements
  {
    dfg.Node(edge.src).outputReady.Some? &&
    PlanLegal(target, ii, edge, dfg.Node(edge.src).outputReady.value, placements[edge.src], placements[edge.dst], plan)
  }

  ghost function PlanLinks(target: TargetModel, ii: nat, edge: TargetEdge, placements: map<nat, NodePlacement>,
                           plan: TransportPlan): seq<Resource>
    requires 0 < ii && edge.src in placements
  {
    LinksOf(ContextFor(target, ii, edge.kind, placements[edge.src]), plan.actions)
  }

  // Fewer occupied resources never hurt.
  lemma {:induction false} RealiseMonotone(dfg: TargetDFG, target: TargetModel, ii: nat,
                                           placements: map<nat, NodePlacement>, k: nat,
                                           fewer: set<Resource>, more: set<Resource>)
    requires 0 < ii && k <= |dfg.edges|
    requires forall edge :: edge in dfg.edges ==> dfg.HasNode(edge.src) && edge.src in placements && edge.dst in placements
    requires fewer <= more && CanRealise(dfg, target, ii, placements, k, more)
    ensures CanRealise(dfg, target, ii, placements, k, fewer)
    decreases |dfg.edges| - k
  {
    if k < |dfg.edges| {
      var edge := dfg.edges[k];
      if edge.kind == MemoryEdge {
        RealiseMonotone(dfg, target, ii, placements, k + 1, fewer, more);
      } else {
        var plan :| RoutesEdge(dfg, target, ii, edge, placements, plan) &&
                    Members(PlanLinks(target, ii, edge, placements, plan)) !! more &&
                    CanRealise(dfg, target, ii, placements, k + 1,
                               more + Members(PlanLinks(target, ii, edge, placements, plan)));
        var links := Members(PlanLinks(target, ii, edge, placements, plan));
        RealiseMonotone(dfg, target, ii, placements, k + 1, fewer + links, more + links);
      }
    }
  }

  ghost predicate EndpointsIn(dfg: TargetDFG, keys: set<nat>) {
    forall edge :: edge in dfg.edges ==> dfg.HasNode(edge.src) && edge.src in keys && edge.dst in keys
  }

  // Nodes from index k on can be placed one after another, and then all edges realised.
  ghost predicate CanPlace(dfg: TargetDFG, target: TargetModel, ii: nat, placements: map<nat, NodePlacement>,
                           k: nat, occupied: set<Resource>)
    requires 0 < ii && k <= |dfg.nodes|
    requires placements.Keys == FirstKeys(NodeId, dfg.nodes, k)
    requires EndpointsIn(dfg, dfg.NodeIds())
    requires forall node :: node in dfg.nodes ==> node.operation in target.operations
    decreases |dfg.nodes| - k
  {
    if k == |dfg.nodes| then CanRealise(dfg, target, ii, placements, 0, occupied)
    else
      exists placement :: NodeLegal(target, ii, dfg.nodes[k], placement) &&
        var units := Members(Footprint(target.operations[dfg.nodes[k].operation], placement.tile, placement.issueSlot, ii));
        units !! occupied &&
        CanPlace(dfg, target, ii, placements[dfg.nodes[k].id := placement], k + 1, occupied + units)
  }

  // With all nodes entered, the owners entered before edge k.
  ghost predicate BeforeEdge(dfg: TargetDFG, k: nat, o: Owner)
    requires k <= |dfg.edges|
  {
    o.kind == NodeOwner || exists j :: 0 <= j < k && o.id == dfg.edges[j].id
  }

  ghost predicate HeldByEdgesBefore(dfg: TargetDFG, target: TargetModel, ii: nat, placements: map<nat, NodePlacement>,
                                    dependences: map<nat, MappedDependence>, k: nat, occupied: set<Resource>)
    requires k <= |dfg.edges|
  {
    forall r :: r in occupied ==>
      exists o :: r in ClaimOf(dfg, target, ii, placements, dependences, o) && BeforeEdge(dfg, k, o)
  }

  lemma LegalPlan(dfg: TargetDFG, target: TargetModel, ii: nat, placements: map<nat, NodePlacement>,
                  dependences: map<nat, MappedDependence>, edge: TargetEdge) returns (plan: TransportPlan)
    requires 0 < ii && dfg.UniqueIds() && edge in dfg.edges && edge.kind != MemoryEdge
    requires edge.id in dependences
    requires DependenceLegal(dfg, target, ii, edge, placements, dependences[edge.id])
    ensures RoutesEdge(dfg, target, ii, edge, placements, plan)
    ensures ClaimOf(dfg, target, ii, placements, dependences, Owner(EdgeOwner, edge.id)) ==
            PlanLinks(target, ii, edge, placements, plan)
  {
    plan := dependences[edge.id].transport.value;
    dfg.EdgeUnique(edge);
  }

  lemma LegalEdge(dfg: TargetDFG, target: TargetModel, ii: nat, placements: map<nat, NodePlacement>,
                  dependences: map<nat, MappedDependence>, k: nat, occupied: set<Resource>)
    returns (plan: TransportPlan)
    requires k < |dfg.edges| && dfg.UniqueIds() && EndpointsIn(dfg, dfg.NodeIds())
    requires LegalMaps(dfg, target, ii, placements, dependences)
    requires HeldByEdgesBefore(dfg, target, ii, placements, dependences, k, occupied)
    requires dfg.edges[k].kind != MemoryEdge
    ensures RoutesEdge(dfg, target, ii, dfg.edges[k], placements, plan)
    ensures var links := Members(PlanLinks(target, ii, dfg.edges[k], placements, plan));
      && links !! occupied
      && HeldByEdgesBefore(dfg, target, ii, placements, dependences, k + 1, occupied + links)
  {
    var edge := dfg.edges[k];
    assert edge.id in dfg.EdgeIds();
    plan := LegalPlan(dfg, target, ii, placements, dependences, edge);
    LaterEdgeIsNew(dfg, k);
    NewHolder(dfg, target, ii, placements, dependences, k, occupied, Owner(EdgeOwner, edge.id));
  }

  lemma LaterEdgeIsNew(dfg: TargetDFG, k: nat)
    requires k < |dfg.edges| && dfg.UniqueIds()
    ensures !BeforeEdge(dfg, k, Owner(EdgeOwner, dfg.edges[k].id))
    ensures BeforeEdge(dfg, k + 1, Owner(EdgeOwner, dfg.edges[k].id))
  {
  }

  lemma NewHolder(dfg: TargetDFG, target: TargetModel, ii: nat, placements: map<nat, NodePlacement>,
                  dependences: map<nat, MappedDependence>, k: nat, occupied: set<Resource>, me: Owner)
    requires k < |dfg.edges|
    requires ClaimsDisjoint(dfg, target, ii, placements, dependences)
    requires HeldByEdgesBefore(dfg, target, ii, placements, dependences, k, occupied)
    requires !BeforeEdge(dfg, k, me) && BeforeEdge(dfg, k + 1, me)
    ensures var claim := Members(ClaimOf(dfg, target, ii, placements, dependences, me));
      && claim !! occupied
      && HeldByEdgesBefore(dfg, target, ii, placements, dependences, k + 1, occupied + claim)
  {
    forall r | r in occupied
      ensures r !in ClaimOf(dfg, target, ii, placements, dependences, me)
      ensures exists o :: r in ClaimOf(dfg, target, ii, placements, dependences, o) && BeforeEdge(dfg, k + 1, o)
    {
      var o :| r in ClaimOf(dfg, target, ii, placements, dependences, o) && BeforeEdge(dfg, k, o);
      assert o != me;
      assert BeforeEdge(dfg, k + 1, o);
    }
  }

  // A legal mapping realises all its edges in graph order.
  lemma {:induction false} LegalRealises(dfg: TargetDFG, target: TargetModel, ii: nat,
                                         placements: map<nat, NodePlacement>,
                                         dependences: map<nat, MappedDependence>, k: nat, occupied: set<Resource>)
    requires k <= |dfg.edges| && dfg.UniqueIds() && EndpointsIn(dfg, dfg.NodeIds())
    requires LegalMaps(dfg, target, ii, placements, dependences)
    requires HeldByEdgesBefore(dfg, target, ii, placements, dependences, k, occupied)
    ensures CanRealise(dfg, target, ii, placements, k, occupied)
    decreases |dfg.edges| - k
  {
    if k < |dfg.edges| {
      var edge := dfg.edges[k];
      if edge.kind == MemoryEdge {
        LegalRealises(dfg, target, ii, placements, dependences, k + 1, occupied);
      } else {
        var plan := LegalEdge(dfg, target, ii, placements, dependences, k, occupied);
        var links := Members(PlanLinks(target, ii, edge, placements, plan));
        LegalRealises(dfg, target, ii, placements, dependences, k + 1, occupied + links);
      }
    }
  }

  ghost predicate HeldByNodesBefore(dfg: TargetDFG, target: TargetModel, ii: nat, placements: map<nat, NodePlacement>,
                                    dependences: map<nat, MappedDependence>, k: nat, occupied: set<Resource>)
    requires k <= |dfg.nodes|
  {
    forall r :: r in occupied ==>
      exists j | 0 <= j < k ::
        r in ClaimOf(dfg, target, ii, placements, dependences, Owner(NodeOwner, dfg.nodes[j].id))
  }

  lemma LegalNode(dfg: TargetDFG, target: TargetModel, ii: nat, placements: map<nat, NodePlacement>,
                  dependences: map<nat, MappedDependence>, k: nat, occupied: set<Resource>)
    requires k < |dfg.nodes| && dfg.UniqueIds() && dfg.nodes[k].operation in target.operations
    requires LegalMaps(dfg, target, ii, placements, dependences)
    requires HeldByNodesBefore(dfg, target, ii, placements, dependences, k, occupied)
    ensures var node := dfg.nodes[k];
      node.id in placements &&
      var placement := placements[node.id];
      var units := Members(Footprint(target.operations[node.operation], placement.tile, placement.issueSlot, ii));
      && NodeLegal(target, ii, node, placement)
      && units !! occupied
      && HeldByNodesBefore(dfg, target, ii, placements, dependences, k + 1, occupied + units)
  {
    var node := dfg.nodes[k];
    assert node.id in dfg.NodeIds();
    var placement := placements[node.id];
    assert NodeLegal(target, ii, node, placement);
    dfg.NodeUnique(node);
    var me := Owner(NodeOwner, node.id);
    var units := Members(Footprint(target.operations[node.operation], placement.tile, placement.issueSlot, ii));
    forall r | r in units
      ensures r !in occupied && r in ClaimOf(dfg, target, ii, placements, dependences, me)
    {
      assert r in ClaimOf(dfg, target, ii, placements, dependences, me);
    }
    forall r | r in occupied + units
      ensures exists j | 0 <= j < k + 1 ::
        r in ClaimOf(dfg, target, ii, placements, dependences, Owner(NodeOwner, dfg.nodes[j].id))
    {
      if r in units {
        assert r in ClaimOf(dfg, target, ii, placements, dependences, Owner(NodeOwner, dfg.nodes[k].id));
      }
    }
  }

  lemma HeldByNodesOnly(dfg: TargetDFG, target: TargetModel, ii: nat, placements: map<nat, NodePlacement>,
                        dependences: map<nat, MappedDependence>, occupied: set<Resource>)
    requires HeldByNodesBefore(dfg, target, ii, placements, dependences, |dfg.nodes|, occupied)
    ensures HeldByEdgesBefore(dfg, target, ii, placements, dependences, 0, occupied)
  {
    forall r | r in occupied
      ensures exists o :: r in ClaimOf(dfg, target, ii, placements, dependences, o) && BeforeEdge(dfg, 0, o)
    {
      var j :| 0 <= j < |dfg.nodes| &&
        r in ClaimOf(dfg, target, ii, placements, dependences, Owner(NodeOwner, dfg.nodes[j].id));
      assert BeforeEdge(dfg, 0, Owner(NodeOwner, dfg.nodes[j].id));
    }
  }

  lemma PlacedSoFar(dfg: TargetDFG, target: TargetModel, ii: nat, placements: map<nat, NodePlacement>,
                    dependences: map<nat, MappedDependence>, k: nat)
    requires k <= |dfg.nodes| && LegalMaps(dfg, target, ii, placements, dependences)
    ensures Only(placements, FirstKeys(NodeId, dfg.nodes, k)).Keys == FirstKeys(NodeId, dfg.nodes, k)
    ensures k == |dfg.nodes| ==> Only(placements, FirstKeys(NodeId, dfg.nodes, k)) == placements
    ensures 0 < ii && placements.Keys == dfg.NodeIds()
  {
    hide ClaimsDisjoint, NodeLegal, DependenceLegal;
  }

  lemma OneMorePlaced(dfg: TargetDFG, placements: map<nat, NodePlacement>, k: nat)
    requires k < |dfg.nodes| && dfg.UniqueIds() && dfg.nodes[k].id in placements
    ensures Only(placements, FirstKeys(NodeId, dfg.nodes, k + 1)) ==
            Only(placements, FirstKeys(NodeId, dfg.nodes, k))[dfg.nodes[k].id := placements[dfg.nodes[k].id]]
  {
    FirstKeysGrow(NodeId, dfg.nodes, k);
    OnlyMore(placements, FirstKeys(NodeId, dfg.nodes, k), dfg.nodes[k].id);
  }

  // A legal mapping places all its nodes in graph order.
  lemma {:induction false} LegalPlaces(dfg: TargetDFG, target: TargetModel, ii: nat,
                                       placements: map<nat, NodePlacement>,
                                       dependences: map<nat, MappedDependence>, k: nat, occupied: set<Resource>)
    requires k <= |dfg.nodes| && dfg.UniqueIds() && EndpointsIn(dfg, dfg.NodeIds())
    requires forall node :: node in dfg.nodes ==> node.operation in target.operations
    requires LegalMaps(dfg, target, ii, placements, dependences)
    requires HeldByNodesBefore(dfg, target, ii, placements, dependences, k, occupied)
    ensures Only(placements, FirstKeys(NodeId, dfg.nodes, k)).Keys == FirstKeys(NodeId, dfg.nodes, k)
    ensures CanPlace(dfg, target, ii, Only(placements, FirstKeys(NodeId, dfg.nodes, k)), k, occupied)
    decreases |dfg.nodes| - k
  {
    hide LegalMaps, HeldByNodesBefore, HeldByEdgesBefore, EndpointsIn, TargetDFG.UniqueIds;
    var done := FirstKeys(NodeId, dfg.nodes, k);
    PlacedSoFar(dfg, target, ii, placements, dependences, k);
    if k == |dfg.nodes| {
      HeldByNodesOnly(dfg, target, ii, placements, dependences, occupied);
      LegalRealises(dfg, target, ii, placements, dependences, 0, occupied);
    } else {
      var node := dfg.nodes[k];
      LegalNode(dfg, target, ii, placements, dependences, k, occupied);
      var placement := placements[node.id];
      OneMorePlaced(dfg, placements, k);
      var units := Members(Footprint(target.operations[node.operation], placement.tile, placement.issueSlot, ii));
      LegalPlaces(dfg, target, ii, placements, dependences, k + 1, occupied + units);
    }
  }
}
