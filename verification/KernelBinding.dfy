// Binding a kernel to one invocation: external values become constants, live-outs become stores.

module KernelBinding {
  import opened Wrappers
  import opened Kernels
  import opened KernelMeaning
  import opened KernelInvocation

  datatype BindingStatus =
    | Success | InvalidSourceDFG | InvalidInvocation | UnsupportedLiveOutType | ScratchpadABIRegionConflict
    | ScratchpadABICapacityExceeded | BindingFailure | VerificationFailure

  datatype BoundKernel = BoundKernel(dfg: Dfg, layout: KernelLayout)

  // ----- The builder -----

  // The next ID after importing one; IDs have 32 bits.
  function Id32(x: nat): nat {
    x % ID_VALUES
  }

  lemma SmallId(x: nat)
    ensures x < ID_VALUES ==> Id32(x) == x
  {
  }

  function LaterId(next: nat, id: nat): nat {
    var later := Id32(id + 1);
    if next < later then later else next
  }

  class DfgBuilder {
    var dfg: Dfg
    var nextEdgeId: nat

    // Values, nodes and live-outs are imported as they are.
    constructor (source: Dfg)
      ensures dfg == source.(edges := map[], bindings := map[]) && nextEdgeId == 0
    {
      dfg := source.(edges := map[], bindings := map[]);
      nextEdgeId := 0;
    }

    // An ID in use is refused.
    method ImportConstant(id: nat, constant: Constant) returns (ok: bool)
      modifies this
      ensures ok <==> id !in old(dfg.constants)
      ensures dfg == if ok then old(dfg).(constants := old(dfg.constants)[id := constant]) else old(dfg)
      ensures nextEdgeId == old(nextEdgeId)
    {
      ok := id !in dfg.constants;
      if ok {
        dfg := dfg.(constants := dfg.constants[id := constant]);
      }
    }

    method ImportNode(id: nat, node: Node) returns (ok: bool)
      modifies this
      ensures ok <==> id !in old(dfg.nodes)
      ensures dfg == if ok then old(dfg).(nodes := old(dfg.nodes)[id := node]) else old(dfg)
      ensures nextEdgeId == old(nextEdgeId)
    {
      ok := id !in dfg.nodes;
      if ok {
        dfg := dfg.(nodes := dfg.nodes[id := node]);
      }
    }

    method ImportEdge(id: nat, edge: Edge) returns (ok: bool)
      modifies this
      ensures ok <==> id !in old(dfg.edges) && edge.src in old(dfg.nodes) && edge.dst in old(dfg.nodes)
      ensures dfg == if ok then old(dfg).(edges := old(dfg.edges)[id := edge]) else old(dfg)
      ensures nextEdgeId == LaterId(old(nextEdgeId), id)
    {
      ok := id !in dfg.edges && edge.src in dfg.nodes && edge.dst in dfg.nodes;
      nextEdgeId := LaterId(nextEdgeId, id);
      if ok {
        dfg := dfg.(edges := dfg.edges[id := edge]);
      }
    }

    // The operand exists and nothing provides it yet.
    predicate ProviderAvailable(node: nat, operand: nat)
      reads this
    {
      && node in dfg.nodes && operand < |dfg.nodes[node].operandTypes|
      && (forall e :: e in dfg.edges ==> !Feeds(dfg.edges[e], node, operand)) && (node, operand) !in dfg.bindings
    }

    method BindConstant(node: nat, operand: nat, constant: nat) returns (ok: bool)
      modifies this
      ensures ok <==> old(ProviderAvailable(node, operand)) && constant in old(dfg.constants)
      ensures dfg ==
        if ok then old(dfg).(bindings := old(dfg.bindings)[(node, operand) := ConstantRef(constant)]) else old(dfg)
      ensures nextEdgeId == old(nextEdgeId)
    {
      ok := ProviderAvailable(node, operand) && constant in dfg.constants;
      if ok {
        dfg := dfg.(bindings := dfg.bindings[(node, operand) := ConstantRef(constant)]);
      }
    }

    method AddDataEdge(src: nat, dst: nat, operand: nat) returns (ok: bool)
      modifies this
      ensures ok <==>
        old(ProviderAvailable(dst, operand)) && old(nextEdgeId) !in old(dfg.edges) && src in old(dfg.nodes)
      ensures ok ==>
        && dfg == old(dfg).(edges := old(dfg.edges)[old(nextEdgeId) := Edge(src, dst, 0, DataEdge(operand, None))])
        && nextEdgeId == LaterId(old(nextEdgeId), old(nextEdgeId))
    {
      ok := ProviderAvailable(dst, operand);
      if ok {
        ok := ImportEdge(nextEdgeId, Edge(src, dst, 0, DataEdge(operand, None)));
      }
    }

    method AddMemoryEdge(src: nat, dst: nat, dependence: Dependence, distance: nat) returns (ok: bool)
      modifies this
      ensures ok <==> old(nextEdgeId) !in old(dfg.edges) && src in old(dfg.nodes) && dst in old(dfg.nodes)
      ensures ok ==>
        && dfg == old(dfg).(edges := old(dfg.edges)[old(nextEdgeId) := Edge(src, dst, distance, MemoryEdge(dependence))])
        && nextEdgeId == LaterId(old(nextEdgeId), old(nextEdgeId))
    {
      ok := ImportEdge(nextEdgeId, Edge(src, dst, distance, MemoryEdge(dependence)));
    }
  }

  // ----- Fresh IDs -----

  // One more than every ID in use, None where the last ID is taken.
  method NextId(ids: set<nat>) returns (next: Option<nat>)
    requires forall id :: id in ids ==> id < ID_VALUES
    ensures next.None? <==> ID_VALUES - 1 in ids
    ensures next.Some? ==> next.value < ID_VALUES && forall id :: id in ids ==> id < next.value
    ensures next.Some? ==> next.value == 0 || next.value - 1 in ids
  {
    var rest := ids;
    var highest: nat := 0;
    while rest != {}
      invariant rest <= ids && highest < ID_VALUES
      invariant forall id :: id in ids && id !in rest ==> id < highest
      invariant highest == 0 || highest - 1 in ids
      decreases rest
    {
      var id :| id in rest;
      rest := rest - {id};
      if id == ID_VALUES - 1 {
        return None;
      }
      highest := if highest < id + 1 then id + 1 else highest;
    }
    next := Some(highest);
  }

  ghost predicate Ascending(ids: seq<nat>) {
    forall i, j :: 0 <= i < j < |ids| ==> ids[i] < ids[j]
  }

  method Sorted(ids: set<nat>) returns (sorted: seq<nat>)
    ensures Ascending(sorted) && |sorted| == |ids| && forall id :: id in ids <==> id in sorted
  {
    sorted := [];
    var rest := ids;
    while rest != {}
      invariant rest <= ids && |sorted| + |rest| == |ids| && Ascending(sorted)
      invariant forall id :: id in sorted <==> id in ids && id !in rest
      invariant forall i, id :: 0 <= i < |sorted| && id in rest ==> sorted[i] < id
      decreases rest
    {
      var least := Least(rest);
      assert least in rest && rest == (rest - {least}) + {least};
      sorted := sorted + [least];
      rest := rest - {least};
    }
  }

  method Least(ids: set<nat>) returns (least: nat)
    requires ids != {}
    ensures least in ids && forall id :: id in ids ==> least <= id
  {
    least :| least in ids;
    var rest := ids - {least};
    while rest != {}
      invariant rest <= ids && least in ids
      invariant forall id :: id in ids && id !in rest ==> least <= id
      decreases rest
    {
      var id :| id in rest;
      rest := rest - {id};
      least := if id < least then id else least;
    }
  }

  ghost predicate IdsBelow<T>(values: map<nat, T>, bound: nat) {
    forall id :: id in values ==> id < bound
  }

  // ----- Specialising the inputs -----

  // External value x has a constant with its bits.
  ghost predicate Specialised(source: Dfg, scalars: map<nat, nat>, constants: map<nat, Constant>, specialized: map<nat, nat>,
                              x: nat)
  {
    x in source.externals && x in scalars && x in specialized && specialized[x] in constants &&
    constants[specialized[x]] == Constant(source.externals[x].valueType, scalars[x])
  }

  ghost predicate ConstantsKept(before: map<nat, Constant>, after: map<nat, Constant>) {
    forall c :: c in before ==> c in after && after[c] == before[c]
  }

  ghost predicate AllSpecialised(source: Dfg, scalars: map<nat, nat>, constants: map<nat, Constant>, specialized: map<nat, nat>) {
    forall x :: x in specialized ==> Specialised(source, scalars, constants, specialized, x)
  }

  lemma SpecialisedMore(source: Dfg, scalars: map<nat, nat>, before: map<nat, Constant>, constants: map<nat, Constant>,
                        specialized: map<nat, nat>, x: nat, id: nat)
    requires AllSpecialised(source, scalars, constants, specialized) && ConstantsKept(before, constants)
    requires x in source.externals && x in scalars && x !in specialized && id !in constants
    ensures var more := constants[id := Constant(source.externals[x].valueType, scalars[x])];
      ConstantsKept(before, more) && AllSpecialised(source, scalars, more, specialized[x := id])
  {
  }

  lemma IdsMore<T>(values: map<nat, T>, id: nat, value: T)
    ensures IdsBelow(values, id) ==> id !in values && IdsBelow(values[id := value], id + 1)
  {
  }

  // Part of the inputs have their constants, with IDs from `start` up to `next`.
  ghost predicate Specialising(source: Dfg, scalars: map<nat, nat>, first: Dfg, dfg: Dfg, start: nat,
                               specialized: map<nat, nat>, rest: set<nat>, next: nat)
  {
    && Remaining(source, specialized, rest, next - start)
    && dfg == first.(constants := dfg.constants) && ConstantsKept(first.constants, dfg.constants)
    && AllSpecialised(source, scalars, dfg.constants, specialized)
    && (EnoughConstants(source, first, start) ==> IdsBelow(dfg.constants, next))
  }

  ghost predicate EnoughConstants(source: Dfg, first: Dfg, start: nat) {
    IdsBelow(first.constants, start) && start + |source.externals| <= ID_VALUES
  }

  lemma RoomForOne(source: Dfg, scalars: map<nat, nat>, first: Dfg, dfg: Dfg, start: nat, specialized: map<nat, nat>,
                   rest: set<nat>, next: nat, x: nat, constant: Constant)
    requires Specialising(source, scalars, first, dfg, start, specialized, rest, next) && x in rest
    ensures EnoughConstants(source, first, start) ==>
      Id32(next) !in dfg.constants && IdsBelow(dfg.constants[Id32(next) := constant], next + 1)
  {
    hide Specialised, IdsBelow, AllSpecialised, ConstantsKept, Id32, Remaining;
    RemainingMore(source, specialized, rest, next - start, x, 0);
    SmallId(next);
    IdsMore(dfg.constants, next, constant);
  }

  lemma SpecialisingParts(source: Dfg, scalars: map<nat, nat>, first: Dfg, dfg: Dfg, start: nat, specialized: map<nat, nat>,
                          rest: set<nat>, next: nat)
    requires Specialising(source, scalars, first, dfg, start, specialized, rest, next)
    ensures start <= next && Remaining(source, specialized, rest, next - start)
  {
    hide AllSpecialised, ConstantsKept;
  }

  lemma SpecialisingMore(source: Dfg, scalars: map<nat, nat>, first: Dfg, dfg: Dfg, start: nat, specialized: map<nat, nat>,
                         rest: set<nat>, next: nat, x: nat, id: nat, constant: Constant)
    requires Specialising(source, scalars, first, dfg, start, specialized, rest, next)
    requires x in source.externals && x in scalars && x !in specialized && id !in dfg.constants
    requires constant == Constant(source.externals[x].valueType, scalars[x])
    requires Remaining(source, specialized[x := id], rest - {x}, next - start + 1)
    requires EnoughConstants(source, first, start) ==>
      IdsBelow(dfg.constants[id := constant], next + 1)
    ensures Specialising(source, scalars, first, dfg.(constants := dfg.constants[id := constant]), start,
                         specialized[x := id], rest - {x}, next + 1)
  {
    hide AllSpecialised, ConstantsKept, Remaining, EnoughConstants, IdsBelow;
    var more := dfg.constants[id := constant];
    SpecialisedMore(source, scalars, first.constants, dfg.constants, specialized, x, id);
    assert dfg.(constants := more) == first.(constants := more);
  }

  lemma SpecialisingAll(source: Dfg, scalars: map<nat, nat>, first: Dfg, dfg: Dfg, start: nat, specialized: map<nat, nat>,
                        next: nat)
    requires Specialising(source, scalars, first, dfg, start, specialized, {}, next)
    ensures dfg == first.(constants := dfg.constants) && ConstantsKept(first.constants, dfg.constants)
    ensures specialized.Keys == source.externals.Keys && AllSpecialised(source, scalars, dfg.constants, specialized)
    ensures next == start + |source.externals|
    ensures EnoughConstants(source, first, start) ==> IdsBelow(dfg.constants, next)
  {
    hide Specialised, IdsBelow, AllSpecialised, ConstantsKept, Remaining;
    NoneRemaining(source, specialized, next - start);
  }

  method SpecialiseInputs(builder: DfgBuilder, source: Dfg, scalars: map<nat, nat>, start: nat)
    returns (ok: bool, specialized: map<nat, nat>)
    requires source.externals.Keys <= scalars.Keys
    modifies builder
    ensures builder.nextEdgeId == old(builder.nextEdgeId)
    ensures ok ==>
      && builder.dfg == old(builder.dfg).(constants := builder.dfg.constants)
      && ConstantsKept(old(builder.dfg.constants), builder.dfg.constants)
      && specialized.Keys == source.externals.Keys
      && AllSpecialised(source, scalars, builder.dfg.constants, specialized)
    ensures EnoughConstants(source, old(builder.dfg), start) ==>
      ok && IdsBelow(builder.dfg.constants, start + |source.externals|)
  {
    hide *;
    specialized := map[];
    NoneSpecialised(source, scalars, builder.dfg, start);
    var rest, next: nat := source.externals.Keys, start;
    while rest != {}
      invariant Specialising(source, scalars, old(builder.dfg), builder.dfg, start, specialized, rest, next)
      invariant builder.nextEdgeId == old(builder.nextEdgeId)
      decreases rest
    {
      var x :| x in rest;
      ghost var before := builder.dfg;
      SpecialisingParts(source, scalars, old(builder.dfg), before, start, specialized, rest, next);
      RemainingMore(source, specialized, rest, next - start, x, Id32(next));
      var id, constant := Id32(next), Constant(source.externals[x].valueType, scalars[x]);
      RoomForOne(source, scalars, old(builder.dfg), before, start, specialized, rest, next, x, constant);
      ok := builder.ImportConstant(id, constant);
      if !ok {
        return;
      }
      SpecialisingMore(source, scalars, old(builder.dfg), before, start, specialized, rest, next, x, id, constant);
      specialized, rest, next := specialized[x := id], rest - {x}, next + 1;
    }
    SpecialisingAll(source, scalars, old(builder.dfg), builder.dfg, start, specialized, next);
    ok := true;
  }

  // The external values not yet specialised, and how many have been.
  ghost predicate Remaining(source: Dfg, specialized: map<nat, nat>, rest: set<nat>, count: int) {
    && rest <= source.externals.Keys && specialized.Keys == source.externals.Keys - rest
    && count == |specialized| && count + |rest| == |source.externals|
  }

  lemma RemainingMore(source: Dfg, specialized: map<nat, nat>, rest: set<nat>, count: int, x: nat, id: nat)
    requires Remaining(source, specialized, rest, count) && x in rest
    ensures x in source.externals && x !in specialized && count < |source.externals|
    ensures Remaining(source, specialized[x := id], rest - {x}, count + 1)
  {
  }

  lemma NoneRemaining(source: Dfg, specialized: map<nat, nat>, count: int)
    requires Remaining(source, specialized, {}, count)
    ensures specialized.Keys == source.externals.Keys && count == |source.externals|
  {
  }

  lemma NoneSpecialised(source: Dfg, scalars: map<nat, nat>, first: Dfg, start: nat)
    ensures Specialising(source, scalars, first, first, start, map[], source.externals.Keys, start)
  {
  }

  // ----- Rewriting edges and bindings -----

  predicate BoundaryRewritable(edge: Edge, specialized: map<nat, nat>) {
    !edge.info.MemoryEdge? && edge.info.boundary.Some? ==>
      forall j :: 0 <= j < |edge.info.boundary.value| && edge.info.boundary.value[j].value.ExternalRef? ==>
        edge.info.boundary.value[j].value.id in specialized
  }

  // No boundary value of the edge is an input.
  ghost predicate ReadsNoInput(edge: Edge) {
    !edge.info.MemoryEdge? && edge.info.boundary.Some? ==>
      forall j :: 0 <= j < |edge.info.boundary.value| ==> edge.info.boundary.value[j].value.ConstantRef?
  }

  // What can be rewritten is what reads no input then.
  lemma RewritableExactly(edge: Edge, specialized: map<nat, nat>)
    ensures BoundaryRewritable(edge, specialized) <==> ReadsNoInput(RewriteEdge(edge, specialized))
  {
    if !edge.info.MemoryEdge? && edge.info.boundary.Some? {
      var before, after := edge.info.boundary.value, RewriteEdge(edge, specialized).info.boundary.value;
      assert forall j :: 0 <= j < |before| ==> after[j].value == RewriteRef(before[j].value, specialized);
      if !BoundaryRewritable(edge, specialized) {
        var j :| 0 <= j < |before| && before[j].value.ExternalRef? && before[j].value.id !in specialized;
        assert after[j].value.ExternalRef?;
      }
    }
  }

  ghost predicate EdgesImportable(source: Dfg, nodes: map<nat, Node>, specialized: map<nat, nat>) {
    forall e :: e in source.edges ==>
      BoundaryRewritable(source.edges[e], specialized) && source.edges[e].src in nodes && source.edges[e].dst in nodes
  }

  lemma RewritesEnds(edge: Edge, specialized: map<nat, nat>)
    ensures RewriteEdge(edge, specialized).src == edge.src && RewriteEdge(edge, specialized).dst == edge.dst
    ensures forall n, k :: Feeds(RewriteEdge(edge, specialized), n, k) <==> Feeds(edge, n, k)
  {
  }

  // Importing edges keeps the next ID beyond them.
  ghost predicate EdgeIdsTracked(source: Dfg, edges: map<nat, Edge>, next: nat) {
    && IdsBelow(edges, next) && (next == 0 || next - 1 in source.edges)
  }

  ghost predicate EdgeIdsSmall(source: Dfg) {
    forall e :: e in source.edges ==> e + 1 < ID_VALUES
  }

  lemma TrackedMore(source: Dfg, edges: map<nat, Edge>, next: nat, e: nat, edge: Edge)
    requires EdgeIdsTracked(source, edges, next) && EdgeIdsSmall(source) && e in source.edges
    ensures EdgeIdsTracked(source, edges[e := edge], LaterId(next, e))
  {
  }

  method RewriteEdges(builder: DfgBuilder, source: Dfg, specialized: map<nat, nat>) returns (ok: bool)
    requires builder.dfg.edges == map[] && builder.nextEdgeId == 0
    modifies builder
    ensures builder.dfg == old(builder.dfg).(edges := builder.dfg.edges)
    ensures ok ==> builder.dfg.edges == map e | e in source.edges :: RewriteEdge(source.edges[e], specialized)
    ensures EdgesImportable(source, old(builder.dfg.nodes), specialized) ==> ok
    ensures ok ==> forall e :: e in builder.dfg.edges ==> ReadsNoInput(builder.dfg.edges[e])
    ensures ok && EdgeIdsSmall(source) ==> EdgeIdsTracked(source, builder.dfg.edges, builder.nextEdgeId)
  {
    hide RewriteEdge, BoundaryRewritable, EdgeIdsTracked, EdgeIdsSmall, LaterId, EdgesImportable, ReadsNoInput;
    NothingTracked(source);
    var rest := source.edges.Keys;
    while rest != {}
      invariant rest <= source.edges.Keys && builder.dfg.edges.Keys == source.edges.Keys - rest
      invariant builder.dfg == old(builder.dfg).(edges := builder.dfg.edges)
      invariant forall e :: e in builder.dfg.edges ==> builder.dfg.edges[e] == RewriteEdge(source.edges[e], specialized)
      invariant forall e :: e in builder.dfg.edges ==> ReadsNoInput(builder.dfg.edges[e])
      invariant EdgeIdsSmall(source) ==> EdgeIdsTracked(source, builder.dfg.edges, builder.nextEdgeId)
      decreases rest
    {
      var e :| e in rest;
      rest := rest - {e};
      EdgeImportable(source, old(builder.dfg.nodes), specialized, e);
      if !BoundaryRewritable(source.edges[e], specialized) {
        return false;
      }
      RewritesEnds(source.edges[e], specialized);
      RewritableExactly(source.edges[e], specialized);
      ghost var edges, next := builder.dfg.edges, builder.nextEdgeId;
      ok := builder.ImportEdge(e, RewriteEdge(source.edges[e], specialized));
      if !ok {
        return false;
      }
      if EdgeIdsSmall(source) {
        TrackedMore(source, edges, next, e, RewriteEdge(source.edges[e], specialized));
      }
    }
    ok := true;
  }

  lemma NothingTracked(source: Dfg)
    ensures EdgeIdsTracked(source, map[], 0)
  {
  }

  lemma EdgeImportable(source: Dfg, nodes: map<nat, Node>, specialized: map<nat, nat>, e: nat)
    requires e in source.edges
    ensures EdgesImportable(source, nodes, specialized) ==>
      BoundaryRewritable(source.edges[e], specialized) && source.edges[e].src in nodes && source.edges[e].dst in nodes
  {
    hide BoundaryRewritable;
  }

  // Every binding finds its operand free and its constant there.
  ghost predicate BindingsImportable(source: Dfg, dfg: Dfg, specialized: map<nat, nat>) {
    forall b :: b in source.bindings ==>
      && b.0 in dfg.nodes && b.1 < |dfg.nodes[b.0].operandTypes|
      && (forall e :: e in dfg.edges ==> !Feeds(dfg.edges[e], b.0, b.1))
      && RewriteRef(source.bindings[b], specialized).ConstantRef?
      && RewriteRef(source.bindings[b], specialized).id in dfg.constants
  }

  lemma BindingImportable(source: Dfg, dfg: Dfg, specialized: map<nat, nat>, b: (nat, nat))
    requires b in source.bindings
    ensures BindingsImportable(source, dfg, specialized) ==>
      && b.0 in dfg.nodes && b.1 < |dfg.nodes[b.0].operandTypes|
      && (forall e :: e in dfg.edges ==> !Feeds(dfg.edges[e], b.0, b.1))
      && RewriteRef(source.bindings[b], specialized).ConstantRef?
      && RewriteRef(source.bindings[b], specialized).id in dfg.constants
  {
    hide Feeds, RewriteRef;
  }

  method RewriteBindings(builder: DfgBuilder, source: Dfg, specialized: map<nat, nat>) returns (ok: bool)
    requires builder.dfg.bindings == map[]
    modifies builder
    ensures builder.dfg == old(builder.dfg).(bindings := builder.dfg.bindings)
    ensures ok ==> builder.dfg.bindings == map b | b in source.bindings :: RewriteRef(source.bindings[b], specialized)
    ensures builder.nextEdgeId == old(builder.nextEdgeId)
    ensures BindingsImportable(source, old(builder.dfg), specialized) ==> ok
  {
    hide Feeds, BindingsImportable;
    var rest := source.bindings.Keys;
    while rest != {}
      invariant rest <= source.bindings.Keys && builder.dfg.bindings.Keys == source.bindings.Keys - rest
      invariant builder.dfg == old(builder.dfg).(bindings := builder.dfg.bindings)
      invariant forall b :: b in builder.dfg.bindings ==> builder.dfg.bindings[b] == RewriteRef(source.bindings[b], specialized)
      invariant builder.nextEdgeId == old(builder.nextEdgeId)
      decreases rest
    {
      var b :| b in rest;
      rest := rest - {b};
      var ref := source.bindings[b];
      BindingImportable(source, old(builder.dfg), specialized, b);
      if ref.ExternalRef? && ref.id !in specialized {
        return false;
      }
      ok := builder.BindConstant(b.0, b.1, if ref.ExternalRef? then specialized[ref.id] else ref.id);
      if !ok {
        return false;
      }
    }
    ok := true;
  }

  // ----- Storing the outputs -----

  // All edges and bindings are about existing nodes.
  ghost predicate Closed(dfg: Dfg) {
    && (forall e :: e in dfg.edges ==> dfg.edges[e].dst in dfg.nodes)
    && (forall b :: b in dfg.bindings ==> b.0 in dfg.nodes)
  }

  // Everything is kept, and what is new concerns one new node.
  ghost predicate Extends(before: Dfg, after: Dfg, node: nat) {
    && node !in before.nodes
    && (forall n :: n in before.nodes ==> n in after.nodes && after.nodes[n] == before.nodes[n])
    && (forall n :: n in after.nodes && n !in before.nodes ==> after.nodes[n].liveOutLabel.Some?)
    && ConstantsKept(before.constants, after.constants)
    && (forall e :: e in before.edges ==> e in after.edges && after.edges[e] == before.edges[e])
    && (forall e :: e in after.edges && e !in before.edges ==> after.edges[e].dst == node)
    && (forall b :: b in before.bindings ==> b in after.bindings && after.bindings[b] == before.bindings[b])
    && (forall b :: b in after.bindings && b !in before.bindings ==> b.0 == node)
  }

  // What is not the kernel's own is labelled as the store of an output.
  ghost predicate AdditionsLabelled(source: Dfg, dfg: Dfg) {
    forall n :: n in dfg.nodes && n !in source.nodes ==> dfg.nodes[n].liveOutLabel.Some?
  }

  lemma StillLabelled(source: Dfg, before: Dfg, after: Dfg, node: nat)
    requires AdditionsLabelled(source, before) && Extends(before, after, node)
    ensures AdditionsLabelled(source, after)
  {
  }

  lemma StillStored(source: Dfg, before: Dfg, after: Dfg, node: nat, output: OutputBinding)
    requires OutputStored(source, before, output) && Extends(before, after, node)
    ensures OutputStored(source, after, output)
  {
    var e :| e in before.edges && Feeds(before.edges[e], output.store, 1);
    assert e in after.edges && Feeds(after.edges[e], output.store, 1);
  }

  lemma StillKept(source: Dfg, before: Dfg, after: Dfg, node: nat, scalars: map<nat, nat>, specialized: map<nat, nat>)
    requires ValuesKept(source, before, scalars, specialized) && ProvidersKept(source, before, specialized)
    requires Extends(before, after, node)
    ensures ValuesKept(source, after, scalars, specialized) && ProvidersKept(source, after, specialized)
  {
    hide RewriteRef, RewriteEdge;
  }

  // A graph with one more output.
  ghost function WithOutput(before: Dfg, l: nat, liveOut: LiveOut, address: nat, store: nat, addressConstant: nat, data: nat,
                            waw: nat): Dfg
  {
    before.(
      constants := before.constants[addressConstant := Constant(Integer(32), address)],
      nodes := before.nodes[store := Node(Store, Void, [Integer(32), liveOut.valueType], Some(l))],
      bindings := before.bindings[(store, 0) := ConstantRef(addressConstant)],
      edges := before.edges[data := Edge(liveOut.source, store, 0, DataEdge(1, None))]
                           [waw := Edge(store, store, 1, MemoryEdge(WAW))])
  }

  lemma OutputExtends(before: Dfg, after: Dfg, l: nat, liveOut: LiveOut, address: nat, store: nat, addressConstant: nat,
                      data: nat, waw: nat)
    requires Closed(before) && store !in before.nodes && addressConstant !in before.constants
    requires data !in before.edges && waw !in before.edges && waw != data
    requires after == WithOutput(before, l, liveOut, address, store, addressConstant, data, waw)
    ensures Extends(before, after, store) && Closed(after)
  {
  }

  lemma OutputAdded(source: Dfg, before: Dfg, after: Dfg, l: nat, address: nat, store: nat, addressConstant: nat, data: nat,
                    waw: nat)
    requires l in source.liveOuts && Closed(before) && source.nodes.Keys <= before.nodes.Keys
    requires store !in before.nodes && data !in before.edges && waw != data
    requires after == WithOutput(before, l, source.liveOuts[l], address, store, addressConstant, data, waw)
    ensures OutputStored(source, after, OutputBinding(l, address, store, addressConstant))
  {
    assert data in after.edges && Feeds(after.edges[data], store, 1);
  }

  // There are IDs for one more output, and more beyond them.
  ghost predicate Roomy(dfg: Dfg, nextEdgeId: nat, from: nat, store: nat, addressConstant: nat) {
    && IdsBelow(dfg.nodes, store) && IdsBelow(dfg.constants, addressConstant) && from in dfg.nodes
    && IdsBelow(dfg.edges, nextEdgeId) && nextEdgeId + 2 < ID_VALUES
  }

  lemma ClosedIs(dfg: Dfg)
    requires Closed(dfg)
    ensures forall e, n, k :: e in dfg.edges && Feeds(dfg.edges[e], n, k) ==> n in dfg.nodes
    ensures forall n, k :: (n, k) in dfg.bindings ==> n in dfg.nodes
  {
    forall b | b in dfg.bindings
      ensures b.0 in dfg.nodes
    {
    }
  }

  lemma RoomyMeans(dfg: Dfg, next: nat, l: nat, liveOut: LiveOut, address: nat, store: nat, addressConstant: nat)
    ensures Roomy(dfg, next, liveOut.source, store, addressConstant) ==>
      var after := WithOutput(dfg, l, liveOut, address, store, addressConstant, next, next + 1);
      && store !in dfg.nodes && addressConstant !in dfg.constants && liveOut.source in dfg.nodes
      && next !in dfg.edges && next + 1 !in dfg.edges && LaterId(next, next) == next + 1
      && LaterId(next + 1, next + 1) == next + 2
      && IdsBelow(after.edges, next + 2) && IdsBelow(after.nodes, store + 1)
      && IdsBelow(after.constants, addressConstant + 1)
  {
  }

  // The address constant and the store, with its address bound.
  method AddStore(builder: DfgBuilder, l: nat, valueType: ValueType, address: nat, store: nat, addressConstant: nat)
    returns (ok: bool)
    requires Closed(builder.dfg)
    modifies builder
    ensures builder.nextEdgeId == old(builder.nextEdgeId)
    ensures ok <==> store !in old(builder.dfg.nodes) && addressConstant !in old(builder.dfg.constants)
    ensures ok ==> builder.dfg == old(builder.dfg).(
      constants := old(builder.dfg.constants)[addressConstant := Constant(Integer(32), address)],
      nodes := old(builder.dfg.nodes)[store := Node(Store, Void, [Integer(32), valueType], Some(l))],
      bindings := old(builder.dfg.bindings)[(store, 0) := ConstantRef(addressConstant)])
  {
    hide Closed, Feeds;
    ClosedIs(builder.dfg);
    ok := builder.ImportConstant(addressConstant, Constant(Integer(32), address));
    if !ok {
      return;
    }
    ok := builder.ImportNode(store, Node(Store, Void, [Integer(32), valueType], Some(l)));
    if !ok {
      return;
    }
    ok := builder.BindConstant(store, 0, addressConstant);
  }

  // The value's edge to the store, and the store's order with itself.
  method AddStoreEdges(builder: DfgBuilder, from: nat, store: nat) returns (ok: bool)
    modifies builder
    ensures ok ==>
      && old(builder.nextEdgeId) !in old(builder.dfg.edges)
      && LaterId(old(builder.nextEdgeId), old(builder.nextEdgeId)) !in old(builder.dfg.edges)
      && LaterId(old(builder.nextEdgeId), old(builder.nextEdgeId)) != old(builder.nextEdgeId)
      && builder.dfg == old(builder.dfg).(edges :=
           old(builder.dfg.edges)[old(builder.nextEdgeId) := Edge(from, store, 0, DataEdge(1, None))]
                                 [LaterId(old(builder.nextEdgeId), old(builder.nextEdgeId)) :=
                                    Edge(store, store, 1, MemoryEdge(WAW))])
    ensures old(builder.ProviderAvailable(store, 1)) && from in old(builder.dfg.nodes) &&
            old(builder.nextEdgeId) !in old(builder.dfg.edges) && old(builder.nextEdgeId) + 1 !in old(builder.dfg.edges) &&
            LaterId(old(builder.nextEdgeId), old(builder.nextEdgeId)) == old(builder.nextEdgeId) + 1 ==>
      ok && builder.nextEdgeId == LaterId(old(builder.nextEdgeId) + 1, old(builder.nextEdgeId) + 1)
  {
    hide LaterId, Feeds;
    ok := builder.AddDataEdge(from, store, 1);
    if !ok {
      return;
    }
    ok := builder.AddMemoryEdge(store, store, WAW, 1);
  }

  /** One output: its address, its store and the edges that keep it in order. */
  method AddOutput(builder: DfgBuilder, source: Dfg, l: nat, address: nat, store: nat, addressConstant: nat)
    returns (ok: bool)
    requires l in source.liveOuts && Closed(builder.dfg) && source.nodes.Keys <= builder.dfg.nodes.Keys
    modifies builder
    ensures ok ==> Extends(old(builder.dfg), builder.dfg, store) && Closed(builder.dfg)
    ensures ok ==> OutputStored(source, builder.dfg, OutputBinding(l, address, store, addressConstant))
    ensures Roomy(old(builder.dfg), old(builder.nextEdgeId), source.liveOuts[l].source, store, addressConstant) ==>
      && ok && builder.nextEdgeId == old(builder.nextEdgeId) + 2
      && IdsBelow(builder.dfg.edges, builder.nextEdgeId)
      && IdsBelow(builder.dfg.nodes, store + 1) && IdsBelow(builder.dfg.constants, addressConstant + 1)
  {
    hide Extends, Closed, OutputStored, Feeds, Roomy, IdsBelow, LaterId;
    var liveOut := source.liveOuts[l];
    ghost var before, data := builder.dfg, builder.nextEdgeId;
    ghost var waw := LaterId(data, data);
    ClosedIs(before);
    RoomyMeans(before, data, l, liveOut, address, store, addressConstant);
    ok := AddStore(builder, l, liveOut.valueType, address, store, addressConstant);
    if !ok {
      return;
    }
    ok := AddStoreEdges(builder, liveOut.source, store);
    if ok {
      assert builder.dfg == WithOutput(before, l, liveOut, address, store, addressConstant, data, waw);
      OutputExtends(before, builder.dfg, l, liveOut, address, store, addressConstant, data, waw);
      OutputAdded(source, before, builder.dfg, l, address, store, addressConstant, data, waw);
    }
  }

  // ----- All outputs -----

  // The outputs made so far: the first live-outs in the order of their IDs.
  ghost predicate OutputsMade(source: Dfg, dfg: Dfg, base: nat, sorted: seq<nat>, outputs: seq<OutputBinding>) {
    && |outputs| <= |sorted|
    && (forall j :: 0 <= j < |outputs| ==> outputs[j].output == sorted[j] && outputs[j].address == base + j)
    && (forall j :: 0 <= j < |outputs| ==> OutputStored(source, dfg, outputs[j]))
    && (forall j, k :: 0 <= j < k < |outputs| ==> outputs[j].store != outputs[k].store)
  }

  lemma OneMoreOutput(source: Dfg, before: Dfg, after: Dfg, base: nat, sorted: seq<nat>, outputs: seq<OutputBinding>,
                      output: OutputBinding)
    requires OutputsMade(source, before, base, sorted, outputs) && |outputs| < |sorted|
    requires output.output == sorted[|outputs|] && output.address == base + |outputs|
    requires Extends(before, after, output.store) && OutputStored(source, after, output)
    ensures OutputsMade(source, after, base, sorted, outputs + [output])
  {
    hide OutputStored, Extends;
    forall j | 0 <= j < |outputs|
      ensures OutputStored(source, after, outputs[j]) && outputs[j].store != output.store
    {
      StillStored(source, before, after, output.store, outputs[j]);
      NewNode(source, before, after, outputs[j], output.store);
    }
  }

  lemma NewNode(source: Dfg, before: Dfg, after: Dfg, old': OutputBinding, store: nat)
    requires OutputStored(source, before, old') && Extends(before, after, store)
    ensures old'.store != store
  {
  }

  // There are IDs for so many outputs.
  ghost predicate RoomForOutputs(dfg: Dfg, nextEdge: nat, nextNode: nat, nextConstant: nat, count: nat) {
    && IdsBelow(dfg.nodes, nextNode) && nextNode + count <= ID_VALUES
    && IdsBelow(dfg.constants, nextConstant) && nextConstant + count <= ID_VALUES
    && IdsBelow(dfg.edges, nextEdge) && nextEdge + 2 * count < ID_VALUES
  }

  lemma RoomForThis(dfg: Dfg, nextEdge: nat, nextNode: nat, nextConstant: nat, count: nat, from: nat)
    requires 0 < count && from in dfg.nodes
    ensures RoomForOutputs(dfg, nextEdge, nextNode, nextConstant, count) ==>
      && Id32(nextNode) == nextNode && Id32(nextConstant) == nextConstant
      && Roomy(dfg, nextEdge, from, nextNode, nextConstant)
  {
    hide IdsBelow;
  }

  lemma RoomForRest(before: Dfg, nextEdge: nat, nextNode: nat, nextConstant: nat, count: nat, after: Dfg)
    requires 0 < count && RoomForOutputs(before, nextEdge, nextNode, nextConstant, count)
    requires IdsBelow(after.edges, nextEdge + 2) && IdsBelow(after.nodes, nextNode + 1)
    requires IdsBelow(after.constants, nextConstant + 1)
    ensures RoomForOutputs(after, nextEdge + 2, nextNode + 1, nextConstant + 1, count - 1)
  {
    hide IdsBelow;
  }

  method AddOutputs(builder: DfgBuilder, source: Dfg, sorted: seq<nat>, base: nat, width: nat, nextNode: nat,
                    nextConstant: nat, ghost scalars: map<nat, nat>, ghost specialized: map<nat, nat>)
    returns (status: BindingStatus, outputs: seq<OutputBinding>)
    requires Closed(builder.dfg)
    requires forall l :: l in sorted ==> l in source.liveOuts && source.liveOuts[l].source in source.nodes
    requires ValuesKept(source, builder.dfg, scalars, specialized) && ProvidersKept(source, builder.dfg, specialized)
    requires AdditionsLabelled(source, builder.dfg)
    modifies builder
    ensures status in {Success, UnsupportedLiveOutType, BindingFailure}
    ensures status == Success ==> AdditionsLabelled(source, builder.dfg)
    ensures status == Success ==> |outputs| == |sorted| && OutputsMade(source, builder.dfg, base, sorted, outputs)
    ensures status == Success ==>
      ValuesKept(source, builder.dfg, scalars, specialized) && ProvidersKept(source, builder.dfg, specialized)
    ensures status == Success ==> forall l :: l in sorted ==> source.liveOuts[l].valueType == Integer(width)
    ensures status == UnsupportedLiveOutType ==> exists l :: l in sorted && source.liveOuts[l].valueType != Integer(width)
    ensures RoomForOutputs(old(builder.dfg), old(builder.nextEdgeId), nextNode, nextConstant, |sorted|) ==>
      status != BindingFailure
  {
    hide *;
    outputs := [];
    NoOutputs(source, builder.dfg, base, sorted);
    ghost var room := RoomForOutputs(builder.dfg, builder.nextEdgeId, nextNode, nextConstant, |sorted|);
    for j := 0 to |sorted|
      invariant Closed(builder.dfg) && |outputs| == j && OutputsMade(source, builder.dfg, base, sorted, outputs)
      invariant ValuesKept(source, builder.dfg, scalars, specialized) && ProvidersKept(source, builder.dfg, specialized)
      invariant AdditionsLabelled(source, builder.dfg)
      invariant forall i :: 0 <= i < j ==> source.liveOuts[sorted[i]].valueType == Integer(width)
      invariant room ==> RoomForOutputs(builder.dfg, builder.nextEdgeId, nextNode + j, nextConstant + j, |sorted| - j)
    {
      assert sorted[j] in sorted;
      if source.liveOuts[sorted[j]].valueType != Integer(width) {
        return UnsupportedLiveOutType, outputs;
      }
      ghost var before, edge := builder.dfg, builder.nextEdgeId;
      NodesThere(source, before, scalars, specialized);
      RoomForThis(before, edge, nextNode + j, nextConstant + j, |sorted| - j, source.liveOuts[sorted[j]].source);
      var output := OutputBinding(sorted[j], base + j, Id32(nextNode + j), Id32(nextConstant + j));
      var added := AddOutput(builder, source, output.output, output.address, output.store, output.addressConstant);
      if !added {
        return BindingFailure, outputs;
      }
      if room {
        RoomForRest(before, edge, nextNode + j, nextConstant + j, |sorted| - j, builder.dfg);
      }
      OneMoreOutput(source, before, builder.dfg, base, sorted, outputs, output);
      StillKept(source, before, builder.dfg, output.store, scalars, specialized);
      StillLabelled(source, before, builder.dfg, output.store);
      outputs := outputs + [output];
    }
    status := Success;
  }

  lemma NoOutputs(source: Dfg, dfg: Dfg, base: nat, sorted: seq<nat>)
    ensures OutputsMade(source, dfg, base, sorted, [])
  {
  }

  lemma NodesThere(source: Dfg, dfg: Dfg, scalars: map<nat, nat>, specialized: map<nat, nat>)
    requires ValuesKept(source, dfg, scalars, specialized)
    ensures source.nodes.Keys <= dfg.nodes.Keys
  {
  }

  // ----- Binding -----

  predicate IsMemory(node: Node) {
    node.opcode == Load || node.opcode == Store
  }

  // No memory operation of the kernel itself has a constant address in the output region.
  predicate ConstantAddressesClear(dfg: Dfg, base: nat, depth: nat) {
    forall n :: n in dfg.nodes && IsMemory(dfg.nodes[n]) && dfg.nodes[n].liveOutLabel.None? && (n, 0) in dfg.bindings ==>
      var ref := dfg.bindings[(n, 0)];
      ref.ConstantRef? && ref.id in dfg.constants ==> !(base <= dfg.constants[ref.id].bits < depth)
  }

  // No node of the kernel passes itself off as the store of an output.
  predicate Unlabelled(source: Dfg) {
    forall n :: n in source.nodes ==> source.nodes[n].liveOutLabel.None?
  }

  lemma RewrittenProviders(source: Dfg, dfg: Dfg, specialized: map<nat, nat>)
    requires dfg.edges == map e | e in source.edges :: RewriteEdge(source.edges[e], specialized)
    requires dfg.bindings == map b | b in source.bindings :: RewriteRef(source.bindings[b], specialized)
    requires WellFormed(source) && source.nodes.Keys <= dfg.nodes.Keys
    ensures ProvidersKept(source, dfg, specialized) && Closed(dfg)
  {
    hide BoundaryComplete, OneProvider, Known;
  }

  lemma LaidOut(source: Dfg, dfg: Dfg, scalars: map<nat, nat>, sorted: seq<nat>, layout: KernelLayout)
    requires Ascending(sorted) && |sorted| == |source.liveOuts| && forall l :: l in source.liveOuts <==> l in sorted
    requires |layout.outputs| == |sorted| && OutputsMade(source, dfg, layout.outputBase, sorted, layout.outputs)
    requires layout.outputBase + |sorted| == layout.depth
    requires ValuesKept(source, dfg, scalars, layout.inputs) && ProvidersKept(source, dfg, layout.inputs)
    ensures Specialises(source, dfg, scalars, layout)
  {
    hide ValuesKept, ProvidersKept, OutputStored;
    forall l
      ensures l in source.liveOuts <==> exists j :: 0 <= j < |layout.outputs| && layout.outputs[j].output == l
    {
      if l in source.liveOuts {
        var j :| 0 <= j < |sorted| && sorted[j] == l;
        assert layout.outputs[j].output == l;
      }
    }
  }

  // The graph's 32-bit IDs leave room for what binding adds.
  ghost predicate Room(source: Dfg) {
    var inputs, outputs := |source.externals|, |source.liveOuts|;
    && inputs + outputs <= ID_VALUES && 2 * outputs < ID_VALUES
    && (forall c :: c in source.constants ==> c + 1 < ID_VALUES && c + 1 + inputs + outputs <= ID_VALUES)
    && (forall n :: n in source.nodes ==> n + 1 < ID_VALUES && n + 1 + outputs <= ID_VALUES)
    && (forall e :: e in source.edges ==> e + 1 + 2 * outputs < ID_VALUES)
  }

  lemma RoomToSpecialise(source: Dfg, first: Dfg, next: Option<nat>)
    requires Room(source) && first.constants == source.constants
    requires next.None? <==> ID_VALUES - 1 in source.constants.Keys
    requires next.Some? ==> forall id :: id in source.constants.Keys ==> id < next.value
    requires next.Some? ==> next.value == 0 || next.value - 1 in source.constants.Keys
    ensures next.Some? && EnoughConstants(source, first, next.value)
    ensures next.value + |source.externals| + |source.liveOuts| <= ID_VALUES
  {
  }

  lemma RoomForNodes(source: Dfg)
    requires Room(source)
    ensures ID_VALUES - 1 !in source.nodes
  {
  }

  lemma SourceParts(source: Dfg)
    requires WellFormed(source) && IdsFit(source)
    ensures forall c :: c in source.constants ==> c < ID_VALUES
    ensures forall n :: n in source.nodes ==> n < ID_VALUES
    ensures forall l :: l in source.liveOuts ==> source.liveOuts[l].source in source.nodes
  {
    hide BoundaryComplete, OneProvider, Known;
  }

  lemma RoomToStore(source: Dfg, dfg: Dfg, nextEdge: nat, nextNode: nat, nextConstant: nat)
    requires Room(source) && dfg.nodes == source.nodes && IdsBelow(dfg.constants, nextConstant)
    requires nextConstant + |source.liveOuts| <= ID_VALUES
    requires EdgeIdsTracked(source, dfg.edges, nextEdge)
    requires forall id :: id in source.nodes ==> id < nextNode
    requires nextNode == 0 || nextNode - 1 in source.nodes
    ensures RoomForOutputs(dfg, nextEdge, nextNode, nextConstant, |source.liveOuts|)
  {
  }

  lemma RoomMeans(source: Dfg)
    requires Room(source)
    ensures EdgeIdsSmall(source)
  {
  }

  lemma Importable(source: Dfg, nodes: map<nat, Node>, specialized: map<nat, nat>)
    requires WellFormed(source) && nodes == source.nodes && specialized.Keys == source.externals.Keys
    ensures EdgesImportable(source, nodes, specialized)
  {
    hide OneProvider;
    forall e | e in source.edges
      ensures BoundaryRewritable(source.edges[e], specialized)
    {
      assert BoundaryComplete(source, source.edges[e]);
    }
  }

  lemma Bindable(source: Dfg, scalars: map<nat, nat>, dfg: Dfg, specialized: map<nat, nat>)
    requires WellFormed(source) && dfg.nodes == source.nodes && specialized.Keys == source.externals.Keys
    requires dfg.edges == map e | e in source.edges :: RewriteEdge(source.edges[e], specialized)
    requires ConstantsKept(source.constants, dfg.constants) && AllSpecialised(source, scalars, dfg.constants, specialized)
    ensures BindingsImportable(source, dfg, specialized)
  {
    hide BoundaryComplete, RewriteEdge;
    forall b | b in source.bindings
      ensures forall e :: e in dfg.edges ==> !Feeds(dfg.edges[e], b.0, b.1)
    {
      forall e | e in dfg.edges
        ensures !Feeds(dfg.edges[e], b.0, b.1)
      {
        RewritesEnds(source.edges[e], specialized);
      }
    }
  }

  // The kernel itself with its inputs specialised; `next` is the first ID free for a constant.
  method RewriteKernel(builder: DfgBuilder, source: Dfg, scalars: map<nat, nat>)
    returns (ok: bool, specialized: map<nat, nat>, next: nat)
    requires WellFormed(source) && IdsFit(source) && source.externals.Keys == scalars.Keys
    requires builder.dfg == source.(edges := map[], bindings := map[]) && builder.nextEdgeId == 0
    modifies builder
    ensures ok ==>
      && ValuesKept(source, builder.dfg, scalars, specialized) && ProvidersKept(source, builder.dfg, specialized)
      && Closed(builder.dfg) && specialized.Keys == source.externals.Keys && builder.dfg.nodes == source.nodes
    ensures Room(source) ==>
      && ok && EdgeIdsTracked(source, builder.dfg.edges, builder.nextEdgeId)
      && IdsBelow(builder.dfg.constants, next) && next + |source.liveOuts| <= ID_VALUES
  {
    SourceParts(source);
    hide *;
    ghost var before := builder.dfg;
    specialized, next := map[], 0;
    var constantStart := NextId(source.constants.Keys);
    if Room(source) {
      RoomToSpecialise(source, before, constantStart);
      RoomMeans(source);
    }
    if constantStart.None? {
      return false, specialized, next;
    }
    next := constantStart.value + |source.externals|;
    ok, specialized := SpecialiseInputs(builder, source, scalars, constantStart.value);
    if !ok {
      return;
    }
    Importable(source, builder.dfg.nodes, specialized);
    ok := RewriteEdges(builder, source, specialized);
    if !ok {
      return;
    }
    Bindable(source, scalars, builder.dfg, specialized);
    ok := RewriteBindings(builder, source, specialized);
    if !ok {
      return;
    }
    InputsSpecialised(source, before, builder.dfg, scalars, specialized);
    RewrittenProviders(source, builder.dfg, specialized);
  }

  /** Every live-out is an integer of the scratchpad's width. */
  predicate TypesFit(source: Dfg, width: nat) {
    forall l :: l in source.liveOuts ==> source.liveOuts[l].valueType == Integer(width)
  }

  lemma AboutTypes(source: Dfg, width: nat)
    ensures TypesFit(source, width) <==> forall l :: l in source.liveOuts ==> source.liveOuts[l].valueType == Integer(width)
  {
  }

  lemma NothingAdded(source: Dfg, dfg: Dfg)
    requires dfg.nodes == source.nodes
    ensures AdditionsLabelled(source, dfg)
  {
  }

  /** Everything the builder does, once the source and the invocation have been accepted. */
  method BuildBound(source: Dfg, scalars: map<nat, nat>, depth: nat, base: nat, width: nat)
    returns (status: BindingStatus, bound: Option<BoundKernel>)
    requires WellFormed(source) && IdsFit(source) && source.externals.Keys == scalars.Keys
    requires base + |source.liveOuts| == depth
    ensures status in {Success, UnsupportedLiveOutType, BindingFailure} && (bound.Some? <==> status == Success)
    ensures bound.Some? ==>
      && Specialises(source, bound.value.dfg, scalars, bound.value.layout)
      && bound.value.layout.depth == depth && bound.value.layout.outputBase == base
      && bound.value.layout.inputs.Keys == source.externals.Keys
      && AdditionsLabelled(source, bound.value.dfg) && TypesFit(source, width)
    ensures status == UnsupportedLiveOutType ==> !TypesFit(source, width)
    ensures Room(source) ==> status != BindingFailure
  {
    hide *;
    var builder := new DfgBuilder(source);
    var rewritten, specialized, nextConstant := RewriteKernel(builder, source, scalars);
    if !rewritten {
      return BindingFailure, None;
    }
    status, bound := StoreOutputs(builder, source, scalars, specialized, nextConstant, depth, base, width);
  }

  // The stores of all outputs, and the kernel they complete.
  method StoreOutputs(builder: DfgBuilder, source: Dfg, ghost scalars: map<nat, nat>, specialized: map<nat, nat>,
                      nextConstant: nat, depth: nat, base: nat, width: nat)
    returns (status: BindingStatus, bound: Option<BoundKernel>)
    requires WellFormed(source) && IdsFit(source) && base + |source.liveOuts| == depth
    requires ValuesKept(source, builder.dfg, scalars, specialized) && ProvidersKept(source, builder.dfg, specialized)
    requires Closed(builder.dfg) && specialized.Keys == source.externals.Keys && builder.dfg.nodes == source.nodes
    requires Room(source) ==>
      && EdgeIdsTracked(source, builder.dfg.edges, builder.nextEdgeId)
      && IdsBelow(builder.dfg.constants, nextConstant) && nextConstant + |source.liveOuts| <= ID_VALUES
    modifies builder
    ensures status in {Success, UnsupportedLiveOutType, BindingFailure} && (bound.Some? <==> status == Success)
    ensures bound.Some? ==>
      && Specialises(source, bound.value.dfg, scalars, bound.value.layout)
      && bound.value.layout == KernelLayout(depth, base, specialized, bound.value.layout.outputs)
      && AdditionsLabelled(source, bound.value.dfg) && TypesFit(source, width)
    ensures status == UnsupportedLiveOutType ==> !TypesFit(source, width)
    ensures Room(source) ==> status != BindingFailure
  {
    hide *;
    SourceParts(source);
    bound := None;
    var nextNode := NextId(source.nodes.Keys);
    if Room(source) {
      RoomForNodes(source);
      RoomToStore(source, builder.dfg, builder.nextEdgeId, nextNode.value, nextConstant);
    }
    if nextNode.None? {
      return BindingFailure, None;
    }
    var sorted := Sorted(source.liveOuts.Keys);
    NothingAdded(source, builder.dfg);
    AboutTypes(source, width);
    var outputs;
    status, outputs := AddOutputs(builder, source, sorted, base, width, nextNode.value, nextConstant, scalars, specialized);
    if status == Success {
      var layout := KernelLayout(depth, base, specialized, outputs);
      LaidOut(source, builder.dfg, scalars, sorted, layout);
      bound := Some(BoundKernel(builder.dfg, layout));
    }
  }

  lemma InputsSpecialised(source: Dfg, before: Dfg, dfg: Dfg, scalars: map<nat, nat>, specialized: map<nat, nat>)
    requires before == source.(edges := map[], bindings := map[]) && dfg.nodes == before.nodes
    requires ConstantsKept(before.constants, dfg.constants) && specialized.Keys == source.externals.Keys
    requires AllSpecialised(source, scalars, dfg.constants, specialized)
    ensures ValuesKept(source, dfg, scalars, specialized) && source.nodes.Keys <= dfg.nodes.Keys
  {
  }

  // The first checks: a graph, an invocation of it, and words enough for its live-outs.
  ghost predicate Acceptable(source: Dfg, invocation: Invocation, depth: nat, width: nat) {
    && WellFormed(source) && NamesDistinct(source) && InvocationValid(source, invocation, depth, width)
    && |source.liveOuts| <= depth
  }

  /** Neither the preload nor a memory operation with a bound address touches the words reserved for the outputs. */
  ghost predicate RegionClear(source: Dfg, invocation: Invocation, depth: nat)
    requires |source.liveOuts| <= depth
  {
    var base := depth - |source.liveOuts|;
    && PreloadClear(invocation, base, |source.liveOuts|)
    && AddressesClear(source, Scalars(source, invocation), base, depth)
  }

  // No memory operation that does not pass itself off as the store of an output is given an address in the region.
  ghost predicate AddressesClear(source: Dfg, scalars: map<nat, nat>, base: nat, depth: nat) {
    forall n :: n in source.nodes && IsMemory(source.nodes[n]) && source.nodes[n].liveOutLabel.None? &&
                (n, 0) in source.bindings && Known(source, source.bindings[(n, 0)]) ==>
      !(base <= BoundBits(source, scalars, source.bindings[(n, 0)]) < depth)
  }

  // The word a bound operand stands for.
  function BoundBits(source: Dfg, scalars: map<nat, nat>, ref: ValueRef): nat {
    match ref
    case ExternalRef(x) => if x in scalars then scalars[x] else 0
    case ConstantRef(c) => if c in source.constants then source.constants[c].bits else 0
  }

  // The check of the bound graph is the check of the source under its invocation.
  lemma ClearIsClear(source: Dfg, dfg: Dfg, scalars: map<nat, nat>, specialized: map<nat, nat>, base: nat, depth: nat)
    requires WellFormed(source) && ValuesKept(source, dfg, scalars, specialized) && ProvidersKept(source, dfg, specialized)
    requires AdditionsLabelled(source, dfg)
    ensures ConstantAddressesClear(dfg, base, depth) <==> AddressesClear(source, scalars, base, depth)
  {
    hide OneProvider, BoundaryComplete, RewriteEdge, Feeds;
    forall n | n in source.nodes && (n, 0) in source.bindings
      ensures (n, 0) in dfg.bindings && dfg.bindings[(n, 0)].ConstantRef? && dfg.bindings[(n, 0)].id in dfg.constants
      ensures dfg.constants[dfg.bindings[(n, 0)].id].bits == BoundBits(source, scalars, source.bindings[(n, 0)])
    {
      var ref := source.bindings[(n, 0)];
      assert Known(source, ref) && dfg.bindings[(n, 0)] == RewriteRef(ref, specialized);
    }
  }

  lemma AboutAcceptable(source: Dfg, invocation: Invocation, depth: nat, width: nat)
    ensures Acceptable(source, invocation, depth, width) <==>
      && WellFormed(source) && NamesDistinct(source) && InvocationValid(source, invocation, depth, width)
      && |source.liveOuts| <= depth
  {
    hide WellFormed, NamesDistinct, InvocationValid;
  }

  lemma AboutRegion(source: Dfg, invocation: Invocation, depth: nat)
    requires |source.liveOuts| <= depth
    ensures var base := depth - |source.liveOuts|;
      RegionClear(source, invocation, depth) <==>
      && PreloadClear(invocation, base, |source.liveOuts|)
      && AddressesClear(source, Scalars(source, invocation), base, depth)
  {
    hide PreloadClear, AddressesClear, Scalars;
  }

  lemma SpecialisesParts(source: Dfg, dfg: Dfg, scalars: map<nat, nat>, layout: KernelLayout)
    requires Specialises(source, dfg, scalars, layout)
    ensures ValuesKept(source, dfg, scalars, layout.inputs) && ProvidersKept(source, dfg, layout.inputs)
  {
  }

  /**
   * Binds a kernel to an invocation on a target with so many scratchpad words of a width. The independent verification
   * that follows in the compiler is an arbitrary decision beyond what is checked of it here.
   */
  method Bind(source: Dfg, invocation: Invocation, depth: nat, width: nat, verified: bool)
    returns (status: BindingStatus, bound: Option<BoundKernel>)
    requires IdsFit(source) && depth < ID_VALUES
    ensures bound.Some? <==> status == Success
    ensures status == InvalidSourceDFG <==> !WellFormed(source) || !NamesDistinct(source)
    ensures status == InvalidInvocation <==>
      WellFormed(source) && NamesDistinct(source) && !InvocationValid(source, invocation, depth, width)
    ensures status == ScratchpadABICapacityExceeded <==>
      && WellFormed(source) && NamesDistinct(source) && InvocationValid(source, invocation, depth, width)
      && |source.liveOuts| > depth
    ensures status == ScratchpadABIRegionConflict ==>
      Acceptable(source, invocation, depth, width) && !RegionClear(source, invocation, depth)
    ensures status == UnsupportedLiveOutType ==> Acceptable(source, invocation, depth, width) && !TypesFit(source, width)
    ensures status == VerificationFailure ==>
      Acceptable(source, invocation, depth, width) && RegionClear(source, invocation, depth) && TypesFit(source, width) &&
      (!verified || !Unlabelled(source))
    ensures status == BindingFailure ==> Acceptable(source, invocation, depth, width) && !Room(source)
    ensures Room(source) && Acceptable(source, invocation, depth, width) ==>
      if !PreloadClear(invocation, depth - |source.liveOuts|, |source.liveOuts|) then status == ScratchpadABIRegionConflict
      else if !TypesFit(source, width) then status == UnsupportedLiveOutType
      else if !RegionClear(source, invocation, depth) then status == ScratchpadABIRegionConflict
      else if !verified || !Unlabelled(source) then status == VerificationFailure
      else status == Success
    ensures bound.Some? ==>
      && Specialises(source, bound.value.dfg, Scalars(source, invocation), bound.value.layout)
      && bound.value.layout.depth == depth
      && PreloadClear(invocation, bound.value.layout.outputBase, |source.liveOuts|)
      && ConstantAddressesClear(bound.value.dfg, bound.value.layout.outputBase, depth) && Unlabelled(source)
    ensures bound.Some? ==> HoldsInputs(bound.value, invocation.scalarInputs)
  {
    hide *;
    AboutAcceptable(source, invocation, depth, width);
    bound := None;
    if !WellFormed(source) {
      return InvalidSourceDFG, None;
    }
    var ok := NamesUnique(source);
    if !ok {
      return InvalidSourceDFG, None;
    }
    ok := ValidateInvocation(source, invocation, depth, width);
    if !ok {
      return InvalidInvocation, None;
    }
    if |source.liveOuts| > depth {
      return ScratchpadABICapacityExceeded, None;
    }
    var base := depth - |source.liveOuts|;
    AboutRegion(source, invocation, depth);
    ok := PreloadOutside(invocation, base, |source.liveOuts|);
    if !ok {
      return ScratchpadABIRegionConflict, None;
    }
    ScalarsAreGiven(source, invocation, depth, width);
    var built;
    status, built := BuildBound(source, Scalars(source, invocation), depth, base, width);
    if built.None? {
      return;
    }
    SpecialisesParts(source, built.value.dfg, Scalars(source, invocation), built.value.layout);
    ClearIsClear(source, built.value.dfg, Scalars(source, invocation), built.value.layout.inputs, base, depth);
    if !ConstantAddressesClear(built.value.dfg, base, depth) {
      return ScratchpadABIRegionConflict, None;
    }
    if !verified || !Unlabelled(source) {
      return VerificationFailure, None;
    }
    InputsAreHeld(source, built.value, invocation);
    bound := built;
  }

  /** Each scalar of the invocation has a constant in the bound kernel that holds its bits. */
  ghost predicate HoldsInputs(bound: BoundKernel, inputs: seq<Scalar>) {
    forall i :: 0 <= i < |inputs| ==>
      && inputs[i].id in bound.layout.inputs && bound.layout.inputs[inputs[i].id] in bound.dfg.constants
      && bound.dfg.constants[bound.layout.inputs[inputs[i].id]].bits == inputs[i].bits
  }

  lemma InputsAreHeld(source: Dfg, bound: BoundKernel, invocation: Invocation)
    requires ValuesKept(source, bound.dfg, Scalars(source, invocation), bound.layout.inputs)
    requires forall i :: 0 <= i < |invocation.scalarInputs| ==>
      && invocation.scalarInputs[i].id in source.externals
      && Scalars(source, invocation)[invocation.scalarInputs[i].id] == invocation.scalarInputs[i].bits
    ensures HoldsInputs(bound, invocation.scalarInputs)
  {
  }
}
