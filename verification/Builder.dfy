// The graph-aware builder of modulo mappings; a false or empty answer stands for its exceptions.

module Builder {
  import opened Wrappers
  import opened Mesh
  import opened Target
  import opened Ordering
  import opened Mapping

  ghost predicate ActionWellFormed(action: TransportAction, domain: NetworkDomain) {
    action.domain == domain && (action.VirtualHold? ==> action.capture < action.release)
  }

  // A transport the builder takes for an edge.
  ghost predicate PlanFits(edge: TargetEdge, plan: TransportPlan) {
    && edge.kind != MemoryEdge
    && plan.domain == DomainOf(edge.kind)
    && plan.edge == edge.id
    && forall action :: action in plan.actions ==> ActionWellFormed(action, plan.domain)
  }

  function FirstEdge(edges: seq<TargetEdge>, id: nat): (found: Option<TargetEdge>)
    ensures found.Some? ==> found.value in edges && found.value.id == id
    ensures found.None? ==> forall e :: e in edges ==> e.id != id
  {
    if edges == [] then None else if edges[0].id == id then Some(edges[0]) else FirstEdge(edges[1..], id)
  }

  lemma OnlyEdge(dfg: TargetDFG, edge: TargetEdge)
    requires dfg.UniqueIds() && edge in dfg.edges
    ensures FirstEdge(dfg.edges, edge.id) == Some(edge)
  {
    var found := FirstEdge(dfg.edges, edge.id).value;
    var i :| 0 <= i < |dfg.edges| && dfg.edges[i] == edge;
    var j :| 0 <= j < |dfg.edges| && dfg.edges[j] == found;
  }

  class ModuloMappingBuilder {
    const targetName: string
    const ii: nat
    const expectedNodes: seq<nat>
    const expectedEdges: seq<TargetEdge>
    var placements: seq<NodePlacement>
    var dependences: seq<MappedDependence>

    constructor (dfg: TargetDFG, ii: nat)
      requires 0 < ii
      ensures this.targetName == dfg.targetName && this.ii == ii
      ensures expectedNodes == KeysOf(NodeId, dfg.nodes) && expectedEdges == dfg.edges
      ensures placements == [] && dependences == []
    {
      this.targetName := dfg.targetName;
      this.ii := ii;
      this.expectedNodes := KeysOf(NodeId, dfg.nodes);
      this.expectedEdges := dfg.edges;
      this.placements := [];
      this.dependences := [];
    }

    method Place(node: nat, tile: TileCoord, issueSlot: nat) returns (ok: bool)
      modifies this
      ensures ok <==> issueSlot < ii && node in expectedNodes && forall p :: p in old(placements) ==> p.node != node
      ensures placements == if ok then old(placements) + [NodePlacement(node, tile, issueSlot)] else old(placements)
      ensures dependences == old(dependences)
    {
      if issueSlot >= ii || node !in expectedNodes || exists p :: p in placements && p.node == node {
        return false;
      }
      placements := placements + [NodePlacement(node, tile, issueSlot)];
      return true;
    }

    method SetTransport(edge: nat, transport: TransportPlan) returns (ok: bool)
      modifies this
      ensures ok <==>
        && FirstEdge(expectedEdges, edge).Some? && PlanFits(FirstEdge(expectedEdges, edge).value, transport)
        && forall d :: d in old(dependences) ==> d.edge != edge
      ensures placements == old(placements)
      ensures dependences ==
        if ok then old(dependences) + [MappedDependence(edge, FirstEdge(expectedEdges, edge).value.kind,
                                                        transport.requiredSeparation, Some(transport))]
        else old(dependences)
    {
      var found := FirstEdge(expectedEdges, edge);
      if found.None? || found.value.kind == MemoryEdge || transport.domain != DomainOf(found.value.kind) {
        return false;
      }
      if transport.edge != edge || exists d :: d in dependences && d.edge == edge {
        return false;
      }
      for i := 0 to |transport.actions|
        invariant forall j :: 0 <= j < i ==> ActionWellFormed(transport.actions[j], transport.domain)
      {
        var action := transport.actions[i];
        if action.domain != transport.domain || (action.VirtualHold? && action.release <= action.capture) {
          assert action in transport.actions && !ActionWellFormed(action, transport.domain);
          return false;
        }
      }
      dependences := dependences +
        [MappedDependence(edge, found.value.kind, transport.requiredSeparation, Some(transport))];
      return true;
    }

    method SetMemorySeparation(edge: nat, cycles: U32) returns (ok: bool)
      modifies this
      ensures ok <==>
        && FirstEdge(expectedEdges, edge).Some? && FirstEdge(expectedEdges, edge).value.kind == MemoryEdge
        && forall d :: d in old(dependences) ==> d.edge != edge
      ensures placements == old(placements)
      ensures dependences ==
        if ok then old(dependences) + [MappedDependence(edge, MemoryEdge, cycles, None)] else old(dependences)
    {
      var found := FirstEdge(expectedEdges, edge);
      if found.None? || found.value.kind != MemoryEdge || exists d :: d in dependences && d.edge == edge {
        return false;
      }
      dependences := dependences + [MappedDependence(edge, MemoryEdge, cycles, None)];
      return true;
    }

    // Both lists come out in id order.
    method Finish() returns (mapping: Option<ModuloMapping>)
      ensures mapping.Some? <==> |placements| == |expectedNodes| && |dependences| == |expectedEdges|
      ensures mapping.Some? ==>
        mapping.value == ModuloMapping(targetName, ii, SortBy(NodeKey, placements), SortBy(EdgeKey, dependences))
    {
      if |placements| != |expectedNodes| || |dependences| != |expectedEdges| {
        return None;
      }
      return Some(ModuloMapping(targetName, ii, SortBy(NodeKey, placements), SortBy(EdgeKey, dependences)));
    }
  }

  // What the maps of a search must look like for the builder to accept them.
  ghost predicate Buildable(dfg: TargetDFG, ii: nat, placements: map<nat, NodePlacement>,
                            dependences: map<nat, MappedDependence>)
  {
    && placements.Keys == dfg.NodeIds()
    && dependences.Keys == dfg.EdgeIds()
    && (forall n :: n in placements ==> placements[n].node == n && placements[n].issueSlot < ii)
    && (forall edge :: edge in dfg.edges && edge.id in dependences ==> EdgeBuildable(edge, dependences[edge.id]))
  }

  ghost predicate EdgeBuildable(edge: TargetEdge, dependence: MappedDependence) {
    && dependence.edge == edge.id && dependence.kind == edge.kind
    && (if edge.kind == MemoryEdge then dependence.transport.None?
        else dependence.transport.Some? && PlanFits(edge, dependence.transport.value) &&
             dependence.requiredSeparation == dependence.transport.value.requiredSeparation)
  }

  // Every action of a transport that can be followed is well formed.
  lemma {:induction false} FollowedFits(ctx: RouteContext, actions: seq<TransportAction>, start: Availability)
    requires Follow(ctx, actions, start).Some?
    ensures forall action :: action in actions ==> ActionWellFormed(action, ctx.domain)
  {
    if actions != [] {
      var before, last := actions[..|actions| - 1], actions[|actions| - 1];
      FollowedFits(ctx, before, start);
      assert actions == before + [last];
    }
  }

  lemma LegalIsBuildable(dfg: TargetDFG, target: TargetModel, ii: nat, placements: map<nat, NodePlacement>,
                         dependences: map<nat, MappedDependence>)
    requires dfg.UniqueIds() && LegalMaps(dfg, target, ii, placements, dependences)
    ensures Buildable(dfg, ii, placements, dependences)
  {
    forall n | n in placements
      ensures placements[n].node == n && placements[n].issueSlot < ii
    {
      var i :| 0 <= i < |dfg.nodes| && dfg.nodes[i].id == n;
      assert NodeLegal(target, ii, dfg.nodes[i], placements[n]);
    }
    forall edge | edge in dfg.edges && edge.id in dependences
      ensures EdgeBuildable(edge, dependences[edge.id])
    {
      assert DependenceLegal(dfg, target, ii, edge, placements, dependences[edge.id]);
      if edge.kind != MemoryEdge {
        FollowedFits(ContextFor(target, ii, edge.kind, placements[edge.src]),
                     dependences[edge.id].transport.value.actions,
                     Availability(placements[edge.src].tile, dfg.Node(edge.src).outputReady.value));
      }
    }
  }

  ghost predicate ListsSome<T(!new)>(key: T -> nat, entries: seq<T>, m: map<nat, T>, keys: set<nat>) {
    && DistinctKeys(key, entries)
    && (forall x :: x in entries ==> key(x) in keys && key(x) in m && m[key(x)] == x)
    && (forall k :: k in keys ==> k in m && m[k] in entries && key(m[k]) == k)
  }

  lemma ListsMore<T(!new)>(key: T -> nat, entries: seq<T>, m: map<nat, T>, keys: set<nat>, x: T)
    requires ListsSome(key, entries, m, keys)
    requires key(x) !in keys && key(x) in m && m[key(x)] == x
    ensures ListsSome(key, entries + [x], m, keys + {key(x)})
  {
    forall i | 0 <= i < |entries|
      ensures key(entries[i]) != key(x)
    {
      assert entries[i] in entries;
    }
  }

  lemma SortedLists<T(!new)>(key: T -> nat, entries: seq<T>, m: map<nat, T>, keys: set<nat>)
    requires ListsSome(key, entries, m, keys) && keys == m.Keys
    ensures Lists(key, SortBy(key, entries), m)
  {
    SortKeeps(key, entries);
  }

  // The next node, or edge, of a buildable pair of maps is always accepted.
  method EnterPlacement(builder: ModuloMappingBuilder, placement: NodePlacement,
                        ghost placements: map<nat, NodePlacement>, ghost keys: set<nat>)
    requires ListsSome(NodeKey, builder.placements, placements, keys)
    requires placement.node !in keys && placement.node in placements && placements[placement.node] == placement
    requires placement.node in builder.expectedNodes && placement.issueSlot < builder.ii
    modifies builder
    ensures builder.dependences == old(builder.dependences)
    ensures |builder.placements| == |old(builder.placements)| + 1
    ensures ListsSome(NodeKey, builder.placements, placements, keys + {placement.node})
  {
    ListsMore(NodeKey, builder.placements, placements, keys, placement);
    var ok := builder.Place(placement.node, placement.tile, placement.issueSlot);
    assert ok;
  }

  method EnterDependence(builder: ModuloMappingBuilder, dfg: TargetDFG, edge: TargetEdge, dependence: MappedDependence,
                         ghost dependences: map<nat, MappedDependence>, ghost keys: set<nat>)
    requires ListsSome(EdgeKey, builder.dependences, dependences, keys)
    requires dfg.UniqueIds() && edge in dfg.edges && builder.expectedEdges == dfg.edges
    requires EdgeBuildable(edge, dependence)
    requires edge.id !in keys && edge.id in dependences && dependences[edge.id] == dependence
    modifies builder
    ensures builder.placements == old(builder.placements)
    ensures |builder.dependences| == |old(builder.dependences)| + 1
    ensures ListsSome(EdgeKey, builder.dependences, dependences, keys + {edge.id})
  {
    OnlyEdge(dfg, edge);
    ListsMore(EdgeKey, builder.dependences, dependences, keys, dependence);
    var ok;
    if dependence.transport.None? {
      ok := builder.SetMemorySeparation(edge.id, dependence.requiredSeparation);
    } else {
      ok := builder.SetTransport(edge.id, dependence.transport.value);
    }
    assert ok;
  }

  // Entering a buildable pair of maps node by node and edge by edge always yields the mapping they describe.
  method BuildInGraphOrder(dfg: TargetDFG, ii: nat, placements: map<nat, NodePlacement>,
                           dependences: map<nat, MappedDependence>) returns (mapping: Option<ModuloMapping>)
    requires 0 < ii && dfg.UniqueIds()
    requires Buildable(dfg, ii, placements, dependences)
    ensures mapping.Some?
    ensures mapping.value.ii == ii && mapping.value.targetName == dfg.targetName
    ensures Lists(NodeKey, mapping.value.placements, placements)
    ensures Lists(EdgeKey, mapping.value.dependences, dependences)
  {
    var builder := new ModuloMappingBuilder(dfg, ii);
    for i := 0 to |dfg.nodes|
      invariant builder.dependences == [] && |builder.placements| == i
      invariant ListsSome(NodeKey, builder.placements, placements, FirstKeys(NodeId, dfg.nodes, i))
    {
      var n := dfg.nodes[i].id;
      FirstKeysGrow(NodeId, dfg.nodes, i);
      assert n in dfg.NodeIds() && builder.expectedNodes[i] == n;
      EnterPlacement(builder, placements[n], placements, FirstKeys(NodeId, dfg.nodes, i));
    }
    for i := 0 to |dfg.edges|
      invariant |builder.placements| == |dfg.nodes| && |builder.dependences| == i
      invariant ListsSome(NodeKey, builder.placements, placements, FirstKeys(NodeId, dfg.nodes, |dfg.nodes|))
      invariant ListsSome(EdgeKey, builder.dependences, dependences, FirstKeys(EdgeId, dfg.edges, i))
    {
      var edge := dfg.edges[i];
      FirstKeysGrow(EdgeId, dfg.edges, i);
      assert edge.id in dfg.EdgeIds();
      EnterDependence(builder, dfg, edge, dependences[edge.id], dependences, FirstKeys(EdgeId, dfg.edges, i));
    }
    assert FirstKeys(NodeId, dfg.nodes, |dfg.nodes|) == placements.Keys;
    assert FirstKeys(EdgeId, dfg.edges, |dfg.edges|) == dependences.Keys;
    SortedLists(NodeKey, builder.placements, placements, placements.Keys);
    SortedLists(EdgeKey, builder.dependences, dependences, dependences.Keys);
    mapping := builder.Finish();
  }

  // The same in id order, the order of the maps.
  method BuildInIdOrder(dfg: TargetDFG, ii: nat, placements: map<nat, NodePlacement>,
                        dependences: map<nat, MappedDependence>) returns (mapping: Option<ModuloMapping>)
    requires 0 < ii && dfg.UniqueIds()
    requires Buildable(dfg, ii, placements, dependences)
    ensures mapping.Some?
    ensures mapping.value.ii == ii && mapping.value.targetName == dfg.targetName
    ensures Lists(NodeKey, mapping.value.placements, placements)
    ensures Lists(EdgeKey, mapping.value.dependences, dependences)
  {
    var builder := new ModuloMappingBuilder(dfg, ii);
    var nodes := AscendingKeys(placements.Keys);
    EnterPlacements(builder, placements, nodes);
    var edges := AscendingKeys(dependences.Keys);
    EnterDependences(builder, dfg, dependences, edges, ii, placements);
    ListedCounts(dfg, placements, dependences, builder.placements, builder.dependences);
    SortedLists(NodeKey, builder.placements, placements, placements.Keys);
    SortedLists(EdgeKey, builder.dependences, dependences, dependences.Keys);
    mapping := builder.Finish();
  }

  method EnterPlacements(builder: ModuloMappingBuilder, placements: map<nat, NodePlacement>,
                         nodes: seq<nat>)
    requires forall n :: n in nodes <==> n in placements
    requires forall i, j :: 0 <= i < j < |nodes| ==> nodes[i] < nodes[j]
    requires forall n :: n in placements ==> placements[n].node == n && placements[n].issueSlot < builder.ii
    requires forall n :: n in placements ==> n in builder.expectedNodes
    requires builder.placements == []
    modifies builder
    ensures builder.dependences == old(builder.dependences)
    ensures ListsSome(NodeKey, builder.placements, placements, placements.Keys)
  {
    for i := 0 to |nodes|
      invariant builder.dependences == old(builder.dependences)
      invariant ListsSome(NodeKey, builder.placements, placements, KeySet(nodes[..i]))
    {
      assert nodes[i] in nodes;
      NextKey(nodes, i);
      EnterPlacement(builder, placements[nodes[i]], placements, KeySet(nodes[..i]));
    }
    assert nodes[..|nodes|] == nodes;
    assert KeySet(nodes) == placements.Keys;
  }

  method EnterDependences(builder: ModuloMappingBuilder, dfg: TargetDFG, dependences: map<nat, MappedDependence>,
                          edges: seq<nat>, ghost ii: nat, ghost placements: map<nat, NodePlacement>)
    requires forall e :: e in edges <==> e in dependences
    requires forall i, j :: 0 <= i < j < |edges| ==> edges[i] < edges[j]
    requires dfg.UniqueIds() && builder.expectedEdges == dfg.edges && Buildable(dfg, ii, placements, dependences)
    requires builder.dependences == []
    modifies builder
    ensures builder.placements == old(builder.placements)
    ensures ListsSome(EdgeKey, builder.dependences, dependences, dependences.Keys)
  {
    for i := 0 to |edges|
      invariant builder.placements == old(builder.placements)
      invariant ListsSome(EdgeKey, builder.dependences, dependences, KeySet(edges[..i]))
    {
      assert edges[i] in edges;
      NextKey(edges, i);
      BuildableEdge(dfg, ii, placements, dependences, edges[i]);
      EnterDependence(builder, dfg, dfg.Edge(edges[i]), dependences[edges[i]], dependences, KeySet(edges[..i]));
    }
    assert edges[..|edges|] == edges;
    assert KeySet(edges) == dependences.Keys;
  }

  ghost function KeySet(keys: seq<nat>): set<nat> {
    set k | k in keys
  }

  lemma NextKey(keys: seq<nat>, i: nat)
    requires i < |keys| && forall i, j :: 0 <= i < j < |keys| ==> keys[i] < keys[j]
    ensures keys[i] !in KeySet(keys[..i]) && KeySet(keys[..i + 1]) == KeySet(keys[..i]) + {keys[i]}
  {
    assert keys[..i + 1] == keys[..i] + [keys[i]];
  }

  lemma BuildableEdge(dfg: TargetDFG, ii: nat, placements: map<nat, NodePlacement>,
                      dependences: map<nat, MappedDependence>, e: nat)
    requires dfg.UniqueIds() && Buildable(dfg, ii, placements, dependences) && e in dependences
    ensures dfg.HasEdge(e) && EdgeBuildable(dfg.Edge(e), dependences[e])
  {
    assert e in dfg.EdgeIds();
  }

  // A list of all entries is as long as the graph's.
  lemma ListedCounts(dfg: TargetDFG, placements: map<nat, NodePlacement>, dependences: map<nat, MappedDependence>,
                     nodes: seq<NodePlacement>, edges: seq<MappedDependence>)
    requires dfg.UniqueIds() && placements.Keys == dfg.NodeIds() && dependences.Keys == dfg.EdgeIds()
    requires ListsSome(NodeKey, nodes, placements, placements.Keys)
    requires ListsSome(EdgeKey, edges, dependences, dependences.Keys)
    ensures |nodes| == |dfg.nodes| && |edges| == |dfg.edges|
  {
    AboutGraphKeys(dfg);
    hide TargetDFG.UniqueIds, TargetDFG.NodeIds, TargetDFG.EdgeIds, HasKeys;
    AboutListedKeys(NodeKey, nodes, placements);
    AboutListedKeys(EdgeKey, edges, dependences);
    hide *;
    DistinctCount(NodeKey, nodes, placements.Keys);
    DistinctCount(EdgeKey, edges, dependences.Keys);
    DistinctCount(NodeId, dfg.nodes, placements.Keys);
    DistinctCount(EdgeId, dfg.edges, dependences.Keys);
  }

  // The entries have these keys, each one of them.
  ghost predicate HasKeys<T(!new)>(key: T -> nat, entries: seq<T>, keys: set<nat>) {
    && DistinctKeys(key, entries)
    && forall k :: k in keys <==> exists i :: 0 <= i < |entries| && key(entries[i]) == k
  }

  lemma AboutGraphKeys(dfg: TargetDFG)
    requires dfg.UniqueIds()
    ensures HasKeys(NodeId, dfg.nodes, dfg.NodeIds()) && HasKeys(EdgeId, dfg.edges, dfg.EdgeIds())
  {
  }

  lemma AboutListedKeys<T(!new)>(key: T -> nat, entries: seq<T>, listed: map<nat, T>)
    requires ListsSome(key, entries, listed, listed.Keys)
    ensures HasKeys(key, entries, listed.Keys)
  {
  }

  // Entries with distinct keys number as many as their keys.
  lemma {:induction false} DistinctCount<T(!new)>(key: T -> nat, entries: seq<T>, keys: set<nat>)
    requires HasKeys(key, entries, keys)
    ensures |entries| == |keys|
  {
    if entries != [] {
      var n := |entries| - 1;
      var k := key(entries[n]);
      assert key(entries[n]) in keys;
      forall j | j in keys - {k}
        ensures exists i :: 0 <= i < n && key(entries[..n][i]) == j
      {
        var i :| 0 <= i < |entries| && key(entries[i]) == j;
        assert key(entries[..n][i]) == j;
      }
      forall i | 0 <= i < n
        ensures key(entries[..n][i]) in keys - {k}
      {
        assert key(entries[i]) in keys;
      }
      DistinctCount(key, entries[..n], keys - {k});
    } else {
      assert keys == {};
    }
  }
}
