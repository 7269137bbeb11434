// What the ownership table records: exactly the claims of the owners entered so far.

module Ledger {
  import opened Wrappers
  import opened Resources
  import opened Reservation
  import opened Mesh
  import opened Target
  import opened Mapping

  ghost predicate Holds(model: ResourceModel, owners: seq<Option<Owner>>, claims: Owner -> seq<Resource>) {
    && |owners| == |model.resources|
    && forall id, o | 0 <= id < |owners| :: owners[id] == Some(o) <==> model.resources[id] in claims(o)
  }

  // A new owner's units enter the ledger; every other claim stays.
  lemma Enter(model: ResourceModel, owners: seq<Option<Owner>>, claims: Owner -> seq<Resource>,
              claims': Owner -> seq<Resource>, owner: Owner, units: seq<Resource>)
    requires model.Valid() && model.Knows(units)
    requires Holds(model, owners, claims)
    requires Reservable(owners, model.IdsOf(units))
    requires claims(owner) == [] && claims'(owner) == units
    requires forall o | o != owner :: claims'(o) == claims(o)
    ensures Holds(model, Assign(owners, model.IdsOf(units), Some(owner)), claims')
  {
    model.IdsAreFaithful(units);
    var ids := model.IdsOf(units);
    var owners' := Assign(owners, ids, Some(owner));
    forall id, o | 0 <= id < |owners'|
      ensures owners'[id] == Some(o) <==> model.resources[id] in claims'(o)
    {
      if id in ids {
        var k :| 0 <= k < |ids| && ids[k] == id;
        assert owners[id].None?;
      }
    }
  }

  // A refused reservation of distinct units collides with somebody's claim.
  lemma Collision(model: ResourceModel, owners: seq<Option<Owner>>, claims: Owner -> seq<Resource>,
                  units: seq<Resource>) returns (o: Owner, r: Resource)
    requires model.Valid() && model.Knows(units) && Distinct(units)
    requires Holds(model, owners, claims)
    requires !Reservable(owners, model.IdsOf(units))
    ensures r in units && r in claims(o)
  {
    model.IdsAreFaithful(units);
    var ids := model.IdsOf(units);
    var k :| 0 <= k < |ids| && !(ids[k] < |owners| && owners[ids[k]].None?);
    r := model.resources[ids[k]];
    o := owners[ids[k]].value;
  }

  // A ledger has at most one owner per resource, so recorded claims never overlap.
  lemma OneOwner(model: ResourceModel, owners: seq<Option<Owner>>, claims: Owner -> seq<Resource>,
                 o1: Owner, o2: Owner, r: Resource)
    requires model.Valid() && Holds(model, owners, claims)
    requires r in model.ids && r in claims(o1) && r in claims(o2)
    ensures o1 == o2
  {
    assert model.resources[model.ids[r]] == r;
  }

  // ----- The claims of partial mappings -----

  ghost function Claims(dfg: TargetDFG, target: TargetModel, ii: nat,
                        placements: map<nat, NodePlacement>, dependences: map<nat, MappedDependence>)
    : Owner -> seq<Resource>
  {
    o => ClaimOf(dfg, target, ii, placements, dependences, o)
  }

  ghost function Only<T>(m: map<nat, T>, keys: set<nat>): map<nat, T> {
    map k | k in m && k in keys :: m[k]
  }

  lemma OnlyMore<T>(m: map<nat, T>, keys: set<nat>, k: nat)
    ensures Only(m, keys + {k}) == if k in m then Only(m, keys)[k := m[k]] else Only(m, keys)
  {
  }

  lemma NothingClaimed(model: ResourceModel, dfg: TargetDFG, target: TargetModel)
    ensures Holds(model, seq(|model.resources|, _ => None), Claims(dfg, target, model.ii, map[], map[]))
  {
  }

  // Placing one more node only adds that node's footprint to the claims.
  lemma PlacingAdds(dfg: TargetDFG, target: TargetModel, ii: nat, placements: map<nat, NodePlacement>,
                    dependences: map<nat, MappedDependence>, node: TargetNode, placement: NodePlacement)
    requires 0 < ii && dfg.UniqueIds() && node in dfg.nodes && node.id !in placements
    requires node.operation in target.operations
    requires forall e | e in dependences && dependences[e].transport.Some? && dfg.HasEdge(e) ::
      dfg.Edge(e).src in placements
    ensures var before := Claims(dfg, target, ii, placements, dependences);
            var after := Claims(dfg, target, ii, placements[node.id := placement], dependences);
            && before(Owner(NodeOwner, node.id)) == []
            && after(Owner(NodeOwner, node.id)) ==
               Footprint(target.operations[node.operation], placement.tile, placement.issueSlot, ii)
            && forall o | o != Owner(NodeOwner, node.id) :: after(o) == before(o)
  {
    dfg.NodeUnique(node);
  }

  // Realising one more edge only adds that edge's links to the claims.
  lemma RealisingAdds(dfg: TargetDFG, target: TargetModel, ii: nat, placements: map<nat, NodePlacement>,
                      dependences: map<nat, MappedDependence>, edge: TargetEdge, dependence: MappedDependence)
    requires 0 < ii && dfg.UniqueIds() && edge in dfg.edges && edge.id !in dependences && edge.src in placements
    ensures var before := Claims(dfg, target, ii, placements, dependences);
            var after := Claims(dfg, target, ii, placements, dependences[edge.id := dependence]);
            && before(Owner(EdgeOwner, edge.id)) == []
            && after(Owner(EdgeOwner, edge.id)) ==
               (if dependence.transport.None? then []
                else LinksOf(ContextFor(target, ii, edge.kind, placements[edge.src]), dependence.transport.value.actions))
            && forall o | o != Owner(EdgeOwner, edge.id) :: after(o) == before(o)
  {
    dfg.EdgeUnique(edge);
  }

  // Claims of restricted maps are claims of the full maps.
  lemma OnlyClaims(dfg: TargetDFG, target: TargetModel, ii: nat, placements: map<nat, NodePlacement>,
                   dependences: map<nat, MappedDependence>, ns: set<nat>, es: set<nat>, o: Owner, r: Resource)
    requires r in ClaimOf(dfg, target, ii, Only(placements, ns), Only(dependences, es), o)
    ensures r in ClaimOf(dfg, target, ii, placements, dependences, o)
  {
  }

  // A placed, supported node claims existing resources.
  lemma NodeClaimKnown(model: ResourceModel, node: TargetNode, placement: NodePlacement)
    requires model.Valid() && NodeLegal(model.target, model.ii, node, placement)
    ensures node.operation in model.target.operations
    ensures var units := Footprint(model.target.operations[node.operation], placement.tile, placement.issueSlot, model.ii);
            model.Knows(units) && Distinct(units)
  {
    model.FootprintKnown(node.operation, placement.tile, placement.issueSlot);
    FootprintDistinct(model.target.operations[node.operation], placement.tile, placement.issueSlot, model.ii);
  }

  lemma RouteClaimKnown(model: ResourceModel, ctx: RouteContext, actions: seq<TransportAction>, start: Availability)
    requires model.Valid() && ctx.target == model.target && ctx.ii == model.ii
    requires Follow(ctx, actions, start).Some?
    ensures model.Knows(LinksOf(ctx, actions))
  {
    LinksExist(ctx, actions, start);
  }

  // Every claim of legally placed nodes and legally realised edges is a known resource.
  ghost predicate PartsLegal(dfg: TargetDFG, target: TargetModel, ii: nat, placements: map<nat, NodePlacement>,
                             dependences: map<nat, MappedDependence>)
  {
    && (forall node :: node in dfg.nodes && node.id in placements ==>
          NodeLegal(target, ii, node, placements[node.id]))
    && (forall edge :: edge in dfg.edges && edge.id in dependences ==>
          DependenceLegal(dfg, target, ii, edge, placements, dependences[edge.id]))
  }

  lemma LegalClaimsKnown(model: ResourceModel, dfg: TargetDFG, placements: map<nat, NodePlacement>,
                         dependences: map<nat, MappedDependence>, o: Owner)
    requires model.Valid() && dfg.UniqueIds()
    requires PartsLegal(dfg, model.target, model.ii, placements, dependences)
    ensures model.Knows(ClaimOf(dfg, model.target, model.ii, placements, dependences, o))
    ensures Distinct(ClaimOf(dfg, model.target, model.ii, placements, dependences, o))
  {
    match o.kind
    case NodeOwner =>
      if o.id in placements && dfg.HasNode(o.id) {
        NodeClaimKnown(model, dfg.Node(o.id), placements[o.id]);
      }
    case EdgeOwner =>
      if o.id in dependences && dependences[o.id].transport.Some? && dfg.HasEdge(o.id) {
        var edge := dfg.Edge(o.id);
        assert DependenceLegal(dfg, model.target, model.ii, edge, placements, dependences[o.id]);
        RouteClaimKnown(model, ContextFor(model.target, model.ii, edge.kind, placements[edge.src]),
                        dependences[o.id].transport.value.actions,
                        Availability(placements[edge.src].tile, dfg.Node(edge.src).outputReady.value));
      }
  }

  // A ledger of legal parts has no overlapping claims.
  lemma LedgerDisjoint(model: ResourceModel, owners: seq<Option<Owner>>, dfg: TargetDFG,
                       placements: map<nat, NodePlacement>, dependences: map<nat, MappedDependence>)
    requires model.Valid() && dfg.UniqueIds()
    requires PartsLegal(dfg, model.target, model.ii, placements, dependences)
    requires Holds(model, owners, Claims(dfg, model.target, model.ii, placements, dependences))
    ensures ClaimsDisjoint(dfg, model.target, model.ii, placements, dependences)
  {
    forall o1, o2, r |
      && r in ClaimOf(dfg, model.target, model.ii, placements, dependences, o1)
      && r in ClaimOf(dfg, model.target, model.ii, placements, dependences, o2)
      ensures o1 == o2
    {
      LegalClaimsKnown(model, dfg, placements, dependences, o1);
      OneOwner(model, owners, Claims(dfg, model.target, model.ii, placements, dependences), o1, o2, r);
    }
  }
}
