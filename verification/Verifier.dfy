// The independent legality checker, proved to accept exactly the legal mappings.

module Verifier {
  import opened Wrappers
  import opened Mesh
  import opened Target
  import opened Resources
  import opened Reservation
  import opened Ordering
  import opened Mapping
  import opened Ledger
  import opened PlainLegality

  datatype Code =
    | InvalidTargetDFG
    | InvalidII
    | TargetNameMismatch
    | UnknownNode
    | NodeDuplicatePlacement
    | UnknownEdge
    | EdgeDuplicateRealization
    | NodeMissingPlacement
    | EdgeMissingRealization
    | TileOutOfRange
    | SlotOutOfRange
    | OperationUnsupportedOnTile
    | ExecutionResourceMissing
    | OperationSelfOverlap
    | ResourceConflict
    | TransportDomainMismatch
    | MemoryTransportPresent
    | MemorySeparationTooSmall
    | MemorySeparationMismatch
    | TransportMissingForValueEdge
    | TransportBadStart
    | TargetTimingMissing
    | LinkTimeBeforeValueReady
    | LinkTimeRegression
    | LinkTimeGapWithoutStorage
    | TransportDiscontinuity
    | LinkInvalidTopology
    | RouteSelfResourceConflict
    | HoldWrongTile
    | HoldBeforeValueReady
    | HoldDiscontinuity
    | HoldInvalidInterval
    | TransportBadEnd
    | RequiredSeparationMismatch
    | InternalError

  datatype Diagnostic = Diagnostic(code: Code, node: Option<nat>, edge: Option<nat>)

  function NodeFault(code: Code, node: nat): Diagnostic {
    Diagnostic(code, Some(node), None)
  }

  function EdgeFault(code: Code, edge: nat): Diagnostic {
    Diagnostic(code, None, Some(edge))
  }

  // ----- One transport -----

  // Following the actions works and drives only distinct, free links.
  ghost predicate Routable(ctx: RouteContext, model: ResourceModel, owners: seq<Option<Owner>>,
                           actions: seq<TransportAction>, start: Availability)
    requires model.Valid() && ctx.target == model.target && ctx.ii == model.ii
  {
    && Follow(ctx, actions, start).Some?
    && Distinct(LinksOf(ctx, actions))
    && forall k :: 0 <= k < |LinksOf(ctx, actions)| ==> FreeLink(model, owners, LinksOf(ctx, actions)[k])
  }

  ghost predicate FreeLink(model: ResourceModel, owners: seq<Option<Owner>>, r: Resource) {
    r in model.ids && model.ids[r] < |owners| && owners[model.ids[r]].None?
  }

  // One more action keeps a transport routable exactly under these conditions.
  lemma RoutableStep(ctx: RouteContext, model: ResourceModel, owners: seq<Option<Owner>>,
                     actions: seq<TransportAction>, action: TransportAction, start: Availability)
    requires model.Valid() && ctx.target == model.target && ctx.ii == model.ii
    ensures Routable(ctx, model, owners, actions + [action], start) <==>
      && Routable(ctx, model, owners, actions, start)
      && Perform(ctx, action, Follow(ctx, actions, start).value).Some?
      && (action.LinkStep? ==>
            var r := ctx.LinkAt(action.source, action.direction, action.elapsed);
            r !in LinksOf(ctx, actions) && FreeLink(model, owners, r))
  {
    var longer := actions + [action];
    assert longer[..|actions|] == actions;
    var links, more := LinksOf(ctx, actions), LinksOf(ctx, longer);
    if action.LinkStep? {
      var r := ctx.LinkAt(action.source, action.direction, action.elapsed);
      assert more == links + [r];
      assert more[|links|] == r;
      assert forall k :: 0 <= k < |links| ==> more[k] == links[k];
      if Distinct(links) && r !in links {
        DistinctConcat(links, [r]);
      }
    } else {
      assert more == links;
    }
  }

  // A link can be looked up exactly when the transport can take it.
  lemma LinkLookup(ctx: RouteContext, model: ResourceModel, source: TileCoord, direction: Direction, elapsed: nat)
    requires model.Valid() && ctx.target == model.target && ctx.ii == model.ii
    ensures var id := model.LinkResource(ctx.domain, source, direction, ctx.SlotAt(elapsed));
            && (id.Some? <==> ctx.Onward(source, direction).Some?)
            && (id.Some? ==> ctx.LinkAt(source, direction, elapsed) in model.ids &&
                             id.value == model.ids[ctx.LinkAt(source, direction, elapsed)])
  {
    assert Exists(model.target, model.ii, ctx.LinkAt(source, direction, elapsed)) <==>
           ctx.Onward(source, direction).Some?;
  }

  // The checks of one action from where the value is believed to be.
  method CheckAction(ctx: RouteContext, model: ResourceModel, table: ReservationTable, action: TransportAction,
                     first: bool, ready: nat, here: Availability, links: seq<nat>)
    returns (fault: Option<Code>, end: Availability, links': seq<nat>)
    requires model.Valid() && ctx.target == model.target && ctx.ii == model.ii
    requires |table.owners| == |model.resources|
    requires first ==> ready == here.elapsed
    ensures fault.None? <==>
      && Perform(ctx, action, here).Some?
      && (action.LinkStep? ==>
            var r := ctx.LinkAt(action.source, action.direction, action.elapsed);
            FreeLink(model, table.owners, r) && model.ids[r] !in links)
    ensures fault.None? ==> Perform(ctx, action, here) == Some(end)
    ensures fault.None? ==>
      links' == links +
        (if action.LinkStep? then [model.ids[ctx.LinkAt(action.source, action.direction, action.elapsed)]] else [])
  {
    hide Advance, Exists, RouteContext.SlotAt, RouteContext.LinkAt, ResourceModel.LinkResource;
    fault, end, links' := None, here, links;
    if action.domain != ctx.domain {
      fault := Some(TransportDomainMismatch);
    } else if action.LinkStep? {
      if first && action.elapsed < ready {
        fault := Some(LinkTimeBeforeValueReady);
      } else if action.elapsed < here.elapsed {
        fault := Some(LinkTimeRegression);
      } else if action.elapsed > here.elapsed {
        fault := Some(LinkTimeGapWithoutStorage);
      } else if action.source != here.tile {
        fault := Some(TransportDiscontinuity);
      } else {
        var next := Neighbor(action.source, action.direction, ctx.target.rows, ctx.target.cols);
        var slot := ctx.SlotAt(action.elapsed);
        var resource := model.LinkResource(ctx.domain, action.source, action.direction, slot);
        LinkLookup(ctx, model, action.source, action.direction, action.elapsed);
        if next.None? || resource.None? {
          fault := Some(LinkInvalidTopology);
        } else if resource.value in links {
          fault := Some(RouteSelfResourceConflict);
        } else {
          links' := links + [resource.value];
          if !table.IsFree(resource.value) {
            fault := Some(ResourceConflict);
          } else {
            end := Availability(next.value, action.elapsed + ctx.target.hopLatency);
          }
        }
      }
    } else if action.tile != here.tile {
      fault := Some(HoldWrongTile);
    } else if action.capture < here.elapsed {
      fault := Some(HoldBeforeValueReady);
    } else if action.capture > here.elapsed {
      fault := Some(HoldDiscontinuity);
    } else if action.release <= action.capture {
      fault := Some(HoldInvalidInterval);
    } else {
      end := Availability(here.tile, action.release);
    }
  }

  // The transport up to `actions` is routable, ends at `end` and drives the links listed.
  ghost predicate Tracked(ctx: RouteContext, model: ResourceModel, owners: seq<Option<Owner>>,
                          actions: seq<TransportAction>, start: Availability, end: Availability, links: seq<nat>)
    requires model.Valid() && ctx.target == model.target && ctx.ii == model.ii
  {
    && Routable(ctx, model, owners, actions, start)
    && Follow(ctx, actions, start) == Some(end)
    && model.Knows(LinksOf(ctx, actions)) && links == model.IdsOf(LinksOf(ctx, actions))
  }

  lemma TrackedStep(ctx: RouteContext, model: ResourceModel, owners: seq<Option<Owner>>,
                    actions: seq<TransportAction>, action: TransportAction, start: Availability, here: Availability,
                    links: seq<nat>, ok: bool, end: Availability, links': seq<nat>)
    requires model.Valid() && ctx.target == model.target && ctx.ii == model.ii && |owners| == |model.resources|
    requires Tracked(ctx, model, owners, actions, start, here, links)
    requires ok <==>
      && Perform(ctx, action, here).Some?
      && (action.LinkStep? ==>
            var r := ctx.LinkAt(action.source, action.direction, action.elapsed);
            FreeLink(model, owners, r) && model.ids[r] !in links)
    requires ok ==> Perform(ctx, action, here) == Some(end)
    requires ok ==>
      links' == links +
        (if action.LinkStep? then [model.ids[ctx.LinkAt(action.source, action.direction, action.elapsed)]] else [])
    ensures ok ==> Tracked(ctx, model, owners, actions + [action], start, end, links')
    ensures !ok ==> !Routable(ctx, model, owners, actions + [action], start)
  {
    hide Advance, Exists, RouteContext.SlotAt, Perform;
    RoutableStep(ctx, model, owners, actions, action, start);
    assert (actions + [action])[..|actions|] == actions;
    model.IdsAreFaithful(LinksOf(ctx, actions));
    if action.LinkStep? {
      var r := ctx.LinkAt(action.source, action.direction, action.elapsed);
      if FreeLink(model, owners, r) {
        assert model.resources[model.ids[r]] == r;
      }
    }
  }

  method VerifyActions(ctx: RouteContext, model: ResourceModel, table: ReservationTable,
                       actions: seq<TransportAction>, edge: nat, start: Availability)
    returns (report: seq<Diagnostic>, end: Availability, links: seq<nat>)
    requires model.Valid() && ctx.target == model.target && ctx.ii == model.ii
    requires |table.owners| == |model.resources|
    ensures report == [] <==> Routable(ctx, model, table.owners, actions, start)
    ensures report == [] ==> Tracked(ctx, model, table.owners, actions, start, end, links)
  {
    hide Advance, Exists, Perform, FreeLink;
    report := [];
    links := [];
    end := start;
    for index := 0 to |actions|
      invariant index == 0 ==> end == start
      invariant |report| == 0 ==> Tracked(ctx, model, table.owners, actions[..index], start, end, links)
      invariant |report| != 0 ==> !Routable(ctx, model, table.owners, actions[..index], start)
    {
      var fault, end', links' := CheckAction(ctx, model, table, actions[index], index == 0, start.elapsed, end, links);
      assert actions[..index + 1] == actions[..index] + [actions[index]];
      if |report| == 0 {
        TrackedStep(ctx, model, table.owners, actions[..index], actions[index], start, end, links,
                    fault.None?, end', links');
      } else {
        RoutableStep(ctx, model, table.owners, actions[..index], actions[index], start);
      }
      end, links := end', links';
      if fault.Some? {
        report := report + [EdgeFault(fault.value, edge)];
      }
    }
    assert actions[..|actions|] == actions;
  }

  // A dependence with a legal transport over free links.
  ghost predicate TransportAcceptable(dfg: TargetDFG, model: ResourceModel, owners: seq<Option<Owner>>,
                                      edge: TargetEdge, placements: map<nat, NodePlacement>,
                                      dependence: MappedDependence)
    requires model.Valid() && dfg.HasNode(edge.src)
    requires edge.src in placements && edge.dst in placements
  {
    var ctx := ContextFor(model.target, model.ii, edge.kind, placements[edge.src]);
    && dependence.transport.Some?
    && dfg.Node(edge.src).outputReady.Some?
    && PlanLegal(model.target, model.ii, edge, dfg.Node(edge.src).outputReady.value,
                 placements[edge.src], placements[edge.dst], dependence.transport.value)
    && dependence.requiredSeparation == dependence.transport.value.requiredSeparation
    && forall r :: r in LinksOf(ctx, dependence.transport.value.actions) ==> FreeLink(model, owners, r)
  }

  method VerifyValueTransport(dfg: TargetDFG, model: ResourceModel, table: ReservationTable, edge: TargetEdge,
                              placements: map<nat, NodePlacement>, dependence: MappedDependence)
    returns (report: seq<Diagnostic>)
    requires model.Valid() && |table.owners| == |model.resources|
    requires dfg.HasNode(edge.src) && edge.src in placements && edge.dst in placements
    modifies table
    ensures report == [] <==> TransportAcceptable(dfg, model, old(table.owners), edge, placements, dependence)
    ensures report != [] ==> table.owners == old(table.owners)
    ensures report == [] ==>
      var links := LinksOf(ContextFor(model.target, model.ii, edge.kind, placements[edge.src]),
                           dependence.transport.value.actions);
      && model.Knows(links)
      && Reservable(old(table.owners), model.IdsOf(links))
      && table.owners == Assign(old(table.owners), model.IdsOf(links), Some(Owner(EdgeOwner, edge.id)))
  {
    if dependence.transport.None? {
      return [EdgeFault(TransportMissingForValueEdge, edge.id)];
    }
    var plan := dependence.transport.value;
    if plan.edge != edge.id {
      return [EdgeFault(TransportBadStart, edge.id)];
    }
    if plan.domain != DomainOf(edge.kind) {
      return [EdgeFault(TransportDomainMismatch, edge.id)];
    }
    var producer, consumer := placements[edge.src], placements[edge.dst];
    var ready := dfg.Node(edge.src).outputReady;
    if ready.None? {
      return [EdgeFault(TargetTimingMissing, edge.id)];
    }
    if model.target.hopLatency == 0 {
      return [EdgeFault(TargetTimingMissing, edge.id)];
    }
    var ctx := ContextFor(model.target, model.ii, edge.kind, producer);
    var start := Availability(producer.tile, ready.value);
    var end, links;
    report, end, links := VerifyActions(ctx, model, table, plan.actions, edge.id, start);
    if report == [] {
      RouteClaimKnown(model, ctx, plan.actions, start);
      model.IdsAreFaithful(LinksOf(ctx, plan.actions));
      RoutableIsReservable(ctx, model, table.owners, plan.actions, start);
    } else {
      NotRoutable(dfg, model, table.owners, edge, placements, dependence);
      return;
    }
    if plan.actions == [] && producer.tile == consumer.tile {
      return [EdgeFault(TransportBadEnd, edge.id)];
    }
    if end.tile != consumer.tile {
      return [EdgeFault(TransportBadEnd, edge.id)];
    }
    if end.elapsed != plan.requiredSeparation || dependence.requiredSeparation != plan.requiredSeparation {
      return [EdgeFault(RequiredSeparationMismatch, edge.id)];
    }
    if links != [] {
      var ok := table.Reserve(links, Owner(EdgeOwner, edge.id));
      if !ok {
        report := [EdgeFault(InternalError, edge.id)];
      }
    }
  }

  lemma RoutableIsReservable(ctx: RouteContext, model: ResourceModel, owners: seq<Option<Owner>>,
                             actions: seq<TransportAction>, start: Availability)
    requires model.Valid() && ctx.target == model.target && ctx.ii == model.ii
    requires Routable(ctx, model, owners, actions, start)
    requires model.Knows(LinksOf(ctx, actions))
    ensures Reservable(owners, model.IdsOf(LinksOf(ctx, actions)))
    ensures forall r :: r in LinksOf(ctx, actions) ==> FreeLink(model, owners, r)
  {
    model.IdsAreFaithful(LinksOf(ctx, actions));
  }

  lemma NotRoutable(dfg: TargetDFG, model: ResourceModel, owners: seq<Option<Owner>>, edge: TargetEdge,
                    placements: map<nat, NodePlacement>, dependence: MappedDependence)
    requires model.Valid() && dfg.HasNode(edge.src) && edge.src in placements && edge.dst in placements
    requires dependence.transport.Some? && dfg.Node(edge.src).outputReady.Some?
    requires !Routable(ContextFor(model.target, model.ii, edge.kind, placements[edge.src]), model, owners,
                       dependence.transport.value.actions,
                       Availability(placements[edge.src].tile, dfg.Node(edge.src).outputReady.value))
    ensures !TransportAcceptable(dfg, model, owners, edge, placements, dependence)
  {
    var ctx := ContextFor(model.target, model.ii, edge.kind, placements[edge.src]);
    var links := LinksOf(ctx, dependence.transport.value.actions);
    assert forall k :: 0 <= k < |links| ==> links[k] in links;
  }

  // ----- Coverage -----

  // Every listed id is known and listed once, and every expected id is listed.
  ghost predicate Covers<T(!new)>(key: T -> nat, entries: seq<T>, ids: set<nat>) {
    && (forall k :: EntriesFor(key, entries, k) != [] ==> k in ids && |EntriesFor(key, entries, k)| == 1)
    && (forall k :: k in ids ==> |EntriesFor(key, entries, k)| == 1)
  }

  ghost function MapOf<T(!new)>(key: T -> nat, entries: seq<T>, ids: set<nat>): map<nat, T> {
    map k | k in ids && |EntriesFor(key, entries, k)| == 1 :: EntriesFor(key, entries, k)[0]
  }

  lemma CoversLists<T(!new)>(key: T -> nat, entries: seq<T>, ids: set<nat>)
    requires Covers(key, entries, ids)
    ensures Lists(key, entries, MapOf(key, entries, ids))
    ensures MapOf(key, entries, ids).Keys == ids
  {
    var m := MapOf(key, entries, ids);
    forall i, j | 0 <= i < j < |entries|
      ensures key(entries[i]) != key(entries[j])
    {
      if key(entries[i]) == key(entries[j]) {
        RepeatIsMany(key, entries, i, j);
      }
    }
    forall x | x in entries
      ensures key(x) in m && m[key(x)] == x
    {
      assert x in EntriesFor(key, entries, key(x));
    }
    forall k | k in m
      ensures m[k] in entries && key(m[k]) == k
    {
      assert m[k] in EntriesFor(key, entries, k);
    }
  }

  lemma ListsCovers<T(!new)>(key: T -> nat, entries: seq<T>, m: map<nat, T>)
    requires Lists(key, entries, m)
    ensures Covers(key, entries, m.Keys)
    ensures MapOf(key, entries, m.Keys) == m
  {
    forall k
      ensures |EntriesFor(key, entries, k)| <= 1
    {
      DistinctIsSingle(key, entries, k);
    }
    forall k | EntriesFor(key, entries, k) != []
      ensures k in m
    {
      assert EntriesFor(key, entries, k)[0] in EntriesFor(key, entries, k);
    }
    forall k | k in m
      ensures m[k] in EntriesFor(key, entries, k)
    {
    }
    CoversLists(key, entries, m.Keys);
    ListsOneMap(key, entries, m, MapOf(key, entries, m.Keys));
  }

  ghost predicate ListedOnce<T(!new)>(key: T -> nat, entries: seq<T>, idSet: set<nat>, k: nat) {
    k in idSet && |EntriesFor(key, entries, k)| == 1
  }

  method CheckListed<T(!new)>(key: T -> nat, entries: seq<T>, groups: map<nat, seq<T>>, ids: seq<nat>,
                              ghost idSet: set<nat>, unknown: Code, duplicate: Code, fault: (Code, nat) -> Diagnostic)
    returns (report: seq<Diagnostic>)
    requires forall k :: k in groups <==> EntriesFor(key, entries, k) != []
    requires forall k :: k in groups ==> groups[k] == EntriesFor(key, entries, k)
    requires forall k :: k in ids <==> k in idSet
    ensures report == [] <==> forall k :: k in groups ==> ListedOnce(key, entries, idSet, k)
  {
    hide EntriesFor;
    report := [];
    var listed := AscendingKeys(groups.Keys);
    for i := 0 to |listed|
      invariant |report| == 0 <==> forall j :: 0 <= j < i ==> ListedOnce(key, entries, idSet, listed[j])
    {
      var k := listed[i];
      assert k in groups && groups[k] == EntriesFor(key, entries, k);
      if k !in ids {
        report := report + [fault(unknown, k)];
      }
      if |groups[k]| > 1 {
        report := report + [fault(duplicate, k)];
      }
    }
    if |report| == 0 {
      forall k | k in groups
        ensures ListedOnce(key, entries, idSet, k)
      {
        assert k in listed;
      }
    } else {
      ghost var j :| 0 <= j < |listed| && !ListedOnce(key, entries, idSet, listed[j]);
      assert listed[j] in groups;
    }
  }

  method CheckExpected<T(!new)>(key: T -> nat, entries: seq<T>, groups: map<nat, seq<T>>, ids: seq<nat>,
                                missing: Code, fault: (Code, nat) -> Diagnostic)
    returns (report: seq<Diagnostic>)
    requires forall k :: k in groups <==> EntriesFor(key, entries, k) != []
    requires forall k :: k in groups ==> groups[k] == EntriesFor(key, entries, k)
    ensures report == [] <==> forall k :: k in ids ==> |EntriesFor(key, entries, k)| == 1
  {
    hide EntriesFor;
    report := [];
    for i := 0 to |ids|
      invariant |report| == 0 <==> forall j :: 0 <= j < i ==> |EntriesFor(key, entries, ids[j])| == 1
    {
      if !(ids[i] in groups && |groups[ids[i]]| == 1) {
        report := report + [fault(missing, ids[i])];
      }
    }
    if |report| != 0 {
      ghost var j :| 0 <= j < |ids| && |EntriesFor(key, entries, ids[j])| != 1;
      assert ids[j] in ids;
    }
  }

  // Unknown, repeated and missing ids of one kind; the unique entry per id comes along.
  method CheckEntries<T(!new)>(key: T -> nat, entries: seq<T>, ids: seq<nat>, ghost idSet: set<nat>, unknown: Code,
                               duplicate: Code, missing: Code, fault: (Code, nat) -> Diagnostic)
    returns (listed: seq<Diagnostic>, expected: seq<Diagnostic>, m: map<nat, T>)
    requires forall k :: k in ids <==> k in idSet
    ensures listed == [] && expected == [] <==> Covers(key, entries, idSet)
    ensures m == MapOf(key, entries, idSet)
    ensures forall k :: k in m ==> key(m[k]) == k
  {
    var groups := GroupBy(key, entries);
    listed := CheckListed(key, entries, groups, ids, idSet, unknown, duplicate, fault);
    expected := CheckExpected(key, entries, groups, ids, missing, fault);
    m := map k | k in groups && k in ids && |groups[k]| == 1 :: groups[k][0];
    OnlyEntry(key, entries, groups, ids, idSet, m);
  }

  lemma OnlyEntry<T(!new)>(key: T -> nat, entries: seq<T>, groups: map<nat, seq<T>>, ids: seq<nat>, idSet: set<nat>,
                           m: map<nat, T>)
    requires forall k :: k in groups <==> EntriesFor(key, entries, k) != []
    requires forall k :: k in groups ==> groups[k] == EntriesFor(key, entries, k)
    requires forall k :: k in ids <==> k in idSet
    requires m == map k | k in groups && k in ids && |groups[k]| == 1 :: groups[k][0]
    ensures m == MapOf(key, entries, idSet)
    ensures forall k :: k in m ==> key(m[k]) == k
  {
    forall k | k in m
      ensures key(m[k]) == k
    {
      assert m[k] in EntriesFor(key, entries, k);
    }
  }

  // ----- Nodes -----

  // The placements of `nodes` are legal and their footprints do not overlap.
  ghost predicate NodesAcceptable(dfg: TargetDFG, target: TargetModel, ii: nat, placements: map<nat, NodePlacement>) {
    && (forall node :: node in dfg.nodes && node.id in placements ==>
          NodeLegal(target, ii, node, placements[node.id]))
    && ClaimsDisjoint(dfg, target, ii, placements, map[])
  }

  ghost function NodeUnits(model: ResourceModel, node: TargetNode, placement: NodePlacement): seq<Resource>
    requires 0 < model.ii && node.operation in model.target.operations
  {
    Footprint(model.target.operations[node.operation], placement.tile, placement.issueSlot, model.ii)
  }

  // Accepts exactly legal placements over free units, and reserves those units.
  method CheckNode(model: ResourceModel, table: ReservationTable, node: TargetNode, placement: NodePlacement)
    returns (report: seq<Diagnostic>)
    requires model.Valid() && model.target.Valid() && NodeMatchesTarget(node, model.target)
    requires |table.owners| == |model.resources| && placement.node == node.id
    modifies table
    ensures |table.owners| == |model.resources|
    ensures report == [] <==>
      && NodeLegal(model.target, model.ii, node, placement)
      && forall r :: r in NodeUnits(model, node, placement) ==> FreeLink(model, old(table.owners), r)
    ensures report == [] ==>
      && model.Knows(NodeUnits(model, node, placement))
      && Reservable(old(table.owners), model.IdsOf(NodeUnits(model, node, placement)))
      && table.owners == Assign(old(table.owners), model.IdsOf(NodeUnits(model, node, placement)),
                                Some(Owner(NodeOwner, node.id)))
  {
    if !InArray(placement.tile, model.target.rows, model.target.cols) {
      return [NodeFault(TileOutOfRange, node.id)];
    }
    if placement.issueSlot >= model.ii {
      return [NodeFault(SlotOutOfRange, node.id)];
    }
    if !model.target.TileSupports(placement.tile, node.operation) {
      return [NodeFault(if node.executionClass == LSUClass then OperationUnsupportedOnTile
                        else ExecutionResourceMissing, node.id)];
    }
    var footprint := model.OperationFootprint(node.operation, placement.tile, placement.issueSlot);
    if footprint.None? {
      return [NodeFault(if node.issueOccupancy > model.ii then OperationSelfOverlap
                        else ExecutionResourceMissing, node.id)];
    }
    NodeClaimKnown(model, node, placement);
    ReservableIsFree(model, table.owners, NodeUnits(model, node, placement));
    var free := table.CanReserve(footprint.value);
    if !free {
      return [NodeFault(ResourceConflict, node.id)];
    }
    var ok := table.Reserve(footprint.value, Owner(NodeOwner, node.id));
    report := if ok then [] else [NodeFault(InternalError, node.id)];
  }

  lemma ReservableIsFree(model: ResourceModel, owners: seq<Option<Owner>>, units: seq<Resource>)
    requires model.Valid() && model.Knows(units) && Distinct(units)
    ensures Reservable(owners, model.IdsOf(units)) <==> forall r :: r in units ==> FreeLink(model, owners, r)
  {
    model.IdsAreFaithful(units);
    if forall r :: r in units ==> FreeLink(model, owners, r) {
      forall k | 0 <= k < |units|
        ensures model.IdsOf(units)[k] < |owners| && owners[model.IdsOf(units)[k]].None?
      {
        assert units[k] in units;
      }
    } else {
      var r :| r in units && !FreeLink(model, owners, r);
      var k :| 0 <= k < |units| && units[k] == r;
      assert model.IdsOf(units)[k] == model.ids[r];
    }
  }

  // The first `i` nodes are legally placed and make up the ledger.
  ghost predicate NodesEntered(dfg: TargetDFG, model: ResourceModel, owners: seq<Option<Owner>>,
                               placements: map<nat, NodePlacement>, nodes: seq<TargetNode>, i: nat)
    requires i <= |nodes|
  {
    && (forall j :: 0 <= j < i && nodes[j].id in placements ==>
          NodeLegal(model.target, model.ii, nodes[j], placements[nodes[j].id]))
    && Holds(model, owners,
             Claims(dfg, model.target, model.ii, Only(placements, FirstKeys(NodeId, nodes, i)), map[]))
  }

  lemma NothingYet<T(!new), U>(key: T -> nat, s: seq<T>, m: map<nat, U>)
    ensures Only(m, FirstKeys(key, s, 0)) == map[]
  {
  }

  lemma DistinctInGraph(dfg: TargetDFG, target: TargetModel)
    requires dfg.Valid(target)
    ensures dfg.UniqueIds()
    ensures DistinctKeys(NodeId, dfg.nodes) && DistinctKeys(EdgeId, dfg.edges)
    ensures forall node :: node in dfg.nodes ==> NodeMatchesTarget(node, target)
    ensures forall edge :: edge in dfg.edges ==> dfg.HasNode(edge.src) && dfg.HasNode(edge.dst)
  {
  }

  // Checks node i, if it is placed; when everything before it was in order, so is the ledger afterwards.
  method CheckNodeAt(dfg: TargetDFG, model: ResourceModel, table: ReservationTable,
                     placements: map<nat, NodePlacement>, nodes: seq<TargetNode>, i: nat, ghost clean: bool)
    returns (faults: seq<Diagnostic>)
    requires model.Valid() && model.target.Valid() && dfg.UniqueIds() && |table.owners| == |model.resources|
    requires i < |nodes| && nodes[i] in dfg.nodes && DistinctKeys(NodeId, nodes)
    requires NodeMatchesTarget(nodes[i], model.target)
    requires nodes[i].id in placements ==> placements[nodes[i].id].node == nodes[i].id
    requires clean ==> NodesEntered(dfg, model, table.owners, placements, nodes, i)
    modifies table
    ensures |table.owners| == |model.resources|
    ensures clean && faults == [] ==> NodesEntered(dfg, model, table.owners, placements, nodes, i + 1)
    ensures clean && faults != [] ==> !NodesAcceptable(dfg, model.target, model.ii, placements)
  {
    hide NodesEntered, NodesAcceptable, ResourceModel.Valid, FreeLink, NodeUnits, NodeLegal;
    faults := [];
    ghost var owners := table.owners;
    if nodes[i].id in placements {
      faults := CheckNode(model, table, nodes[i], placements[nodes[i].id]);
    }
    if clean {
      NodeChecked(dfg, model, owners, table.owners, placements, nodes, i, faults);
    }
  }

  // Walks the nodes in id order; the outcome is exact.
  method CheckNodes(dfg: TargetDFG, model: ResourceModel, table: ReservationTable,
                    placements: map<nat, NodePlacement>, nodes: seq<TargetNode>) returns (report: seq<Diagnostic>)
    requires model.Valid() && model.target.Valid() && dfg.UniqueIds() && |table.owners| == |model.resources|
    requires DistinctKeys(NodeId, nodes)
    requires forall node :: node in nodes ==> node in dfg.nodes && NodeMatchesTarget(node, model.target)
    requires forall n :: n in placements ==> placements[n].node == n
    requires NodesEntered(dfg, model, table.owners, placements, nodes, 0)
    modifies table
    ensures |table.owners| == |model.resources|
    ensures report == [] ==> NodesEntered(dfg, model, table.owners, placements, nodes, |nodes|)
    ensures report != [] ==> !NodesAcceptable(dfg, model.target, model.ii, placements)
  {
    hide NodesEntered, NodesAcceptable, ResourceModel.Valid, DistinctKeys, TargetDFG.UniqueIds, TargetModel.Valid,
         NodeMatchesTarget;
    report := [];
    for i := 0 to |nodes|
      invariant |table.owners| == |model.resources|
      invariant |report| == 0 ==> NodesEntered(dfg, model, table.owners, placements, nodes, i)
      invariant |report| != 0 ==> !NodesAcceptable(dfg, model.target, model.ii, placements)
    {
      assert nodes[i] in nodes;
      var faults := CheckNodeAt(dfg, model, table, placements, nodes, i, |report| == 0);
      report := report + faults;
    }
  }

  lemma AllNodesAccepted(dfg: TargetDFG, model: ResourceModel, owners: seq<Option<Owner>>,
                         placements: map<nat, NodePlacement>, nodes: seq<TargetNode>)
    requires model.Valid() && dfg.UniqueIds()
    requires forall node :: node in nodes <==> node in dfg.nodes
    requires forall n :: n in placements ==> dfg.HasNode(n)
    requires NodesEntered(dfg, model, owners, placements, nodes, |nodes|)
    ensures NodesAcceptable(dfg, model.target, model.ii, placements)
    ensures Holds(model, owners, Claims(dfg, model.target, model.ii, placements, map[]))
  {
    AllNodesVisited(dfg, nodes, placements);
    forall node | node in dfg.nodes && node.id in placements
      ensures NodeLegal(model.target, model.ii, node, placements[node.id])
    {
      var j :| 0 <= j < |nodes| && nodes[j] == node;
    }
    LedgerDisjoint(model, owners, dfg, placements, map[]);
  }

  lemma AllNodesVisited(dfg: TargetDFG, nodes: seq<TargetNode>, placements: map<nat, NodePlacement>)
    requires forall node :: node in nodes <==> node in dfg.nodes
    requires forall n :: n in placements ==> dfg.HasNode(n)
    ensures Only(placements, FirstKeys(NodeId, nodes, |nodes|)) == placements
    ensures forall node :: node in dfg.nodes ==> exists j :: 0 <= j < |nodes| && nodes[j] == node
  {
    forall n | n in placements
      ensures n in FirstKeys(NodeId, nodes, |nodes|)
    {
      var node := dfg.Node(n);
      assert node in nodes;
      var j :| 0 <= j < |nodes| && nodes[j] == node;
      assert NodeId(nodes[j]) == n;
    }
  }

  // One more node either enters the ledger or shows the placements unacceptable.
  lemma NodeChecked(dfg: TargetDFG, model: ResourceModel, owners: seq<Option<Owner>>, owners': seq<Option<Owner>>,
                    placements: map<nat, NodePlacement>, nodes: seq<TargetNode>, i: nat, faults: seq<Diagnostic>)
    requires model.Valid() && dfg.UniqueIds() && i < |nodes| && nodes[i] in dfg.nodes
    requires nodes[i].operation in model.target.operations
    requires DistinctKeys(NodeId, nodes)
    requires NodesEntered(dfg, model, owners, placements, nodes, i)
    requires nodes[i].id !in placements ==> faults == [] && owners' == owners
    requires nodes[i].id in placements ==>
      var units := NodeUnits(model, nodes[i], placements[nodes[i].id]);
      && (faults == [] <==>
            && NodeLegal(model.target, model.ii, nodes[i], placements[nodes[i].id])
            && forall r :: r in units ==> FreeLink(model, owners, r))
      && (faults == [] ==>
            && model.Knows(units) && Reservable(owners, model.IdsOf(units))
            && owners' == Assign(owners, model.IdsOf(units), Some(Owner(NodeOwner, nodes[i].id))))
    ensures faults == [] ==> NodesEntered(dfg, model, owners', placements, nodes, i + 1)
    ensures faults != [] ==> !NodesAcceptable(dfg, model.target, model.ii, placements)
  {
    var node := nodes[i];
    var done := FirstKeys(NodeId, nodes, i);
    FirstKeysGrow(NodeId, nodes, i);
    OnlyMore(placements, done, node.id);
    if node.id in placements {
      PlacingAdds(dfg, model.target, model.ii, Only(placements, done), map[], node, placements[node.id]);
      if faults == [] {
        Enter(model, owners, Claims(dfg, model.target, model.ii, Only(placements, done), map[]),
              Claims(dfg, model.target, model.ii, Only(placements, done + {node.id}), map[]),
              Owner(NodeOwner, node.id), NodeUnits(model, node, placements[node.id]));
      } else if NodeLegal(model.target, model.ii, node, placements[node.id]) {
        NodeClaimKnown(model, node, placements[node.id]);
        ReservableIsFree(model, owners, NodeUnits(model, node, placements[node.id]));
        PlacementCollides(dfg, model, owners, placements, done, node);
      }
    }
  }

  // A footprint the table refuses overlaps the claim of an earlier node.
  lemma PlacementCollides(dfg: TargetDFG, model: ResourceModel, owners: seq<Option<Owner>>,
                          placements: map<nat, NodePlacement>, done: set<nat>, node: TargetNode)
    requires model.Valid() && dfg.UniqueIds() && node in dfg.nodes
    requires node.id in placements && node.id !in done
    requires NodeLegal(model.target, model.ii, node, placements[node.id])
    requires Holds(model, owners, Claims(dfg, model.target, model.ii, Only(placements, done), map[]))
    requires var units := NodeUnits(model, node, placements[node.id]);
             model.Knows(units) && !Reservable(owners, model.IdsOf(units))
    ensures !ClaimsDisjoint(dfg, model.target, model.ii, placements, map[])
  {
    var placement := placements[node.id];
    var units := NodeUnits(model, node, placement);
    NodeClaimKnown(model, node, placement);
    dfg.NodeUnique(node);
    var claims := Claims(dfg, model.target, model.ii, Only(placements, done), map[]);
    var o, r := Collision(model, owners, claims, units);
    var none: map<nat, MappedDependence> := map[];
    assert Only(none, {}) == none;
    OnlyClaims(dfg, model.target, model.ii, placements, map[], done, {}, o, r);
    assert r in ClaimOf(dfg, model.target, model.ii, placements, map[], Owner(NodeOwner, node.id));
    assert o != Owner(NodeOwner, node.id);
  }

  // ----- Edges -----

  // With every node legally placed: the dependences are legal and nothing overlaps.
  ghost predicate EdgesAcceptable(dfg: TargetDFG, target: TargetModel, ii: nat, placements: map<nat, NodePlacement>,
                                  dependences: map<nat, MappedDependence>)
  {
    && (forall edge :: edge in dfg.edges ==>
          edge.id in dependences && DependenceLegal(dfg, target, ii, edge, placements, dependences[edge.id]))
    && ClaimsDisjoint(dfg, target, ii, placements, dependences)
  }

  ghost function DependenceLinks(target: TargetModel, ii: nat, edge: TargetEdge, placements: map<nat, NodePlacement>,
                                 dependence: MappedDependence): seq<Resource>
    requires 0 < ii && edge.src in placements
  {
    if dependence.transport.None? then []
    else LinksOf(ContextFor(target, ii, edge.kind, placements[edge.src]), dependence.transport.value.actions)
  }

  // Accepts exactly legal dependences over free links, and reserves those links.
  method CheckDependence(dfg: TargetDFG, model: ResourceModel, table: ReservationTable, edge: TargetEdge,
                         placements: map<nat, NodePlacement>, dependence: MappedDependence)
    returns (report: seq<Diagnostic>)
    requires model.Valid() && dfg.Valid(model.target) && |table.owners| == |model.resources|
    requires edge in dfg.edges && dependence.edge == edge.id
    modifies table
    ensures |table.owners| == |model.resources|
    ensures edge.src in placements && edge.dst in placements ==>
      var links := DependenceLinks(model.target, model.ii, edge, placements, dependence);
      && (report == [] <==>
            && DependenceLegal(dfg, model.target, model.ii, edge, placements, dependence)
            && forall r :: r in links ==> FreeLink(model, old(table.owners), r))
      && (report == [] ==>
            && model.Knows(links)
            && Reservable(old(table.owners), model.IdsOf(links))
            && table.owners == Assign(old(table.owners), model.IdsOf(links), Some(Owner(EdgeOwner, edge.id))))
  {
    report := [];
    if dependence.kind != edge.kind {
      report := [EdgeFault(TransportDomainMismatch, edge.id)];
    } else if edge.kind == MemoryEdge {
      var expected := model.target.MemorySeparation(edge.dependence);
      if dependence.transport.Some? {
        report := [EdgeFault(MemoryTransportPresent, edge.id)];
      } else if dependence.requiredSeparation < expected {
        report := [EdgeFault(MemorySeparationTooSmall, edge.id)];
      } else if dependence.requiredSeparation != expected {
        report := [EdgeFault(MemorySeparationMismatch, edge.id)];
      }
    } else if edge.src in placements && edge.dst in placements {
      report := VerifyValueTransport(dfg, model, table, edge, placements, dependence);
    }
  }

  // The first `i` edges are legally realised and complete the ledger of the nodes.
  ghost predicate EdgesEntered(dfg: TargetDFG, model: ResourceModel, owners: seq<Option<Owner>>,
                               placements: map<nat, NodePlacement>, dependences: map<nat, MappedDependence>,
                               edges: seq<TargetEdge>, i: nat)
    requires i <= |edges|
  {
    && (forall j :: 0 <= j < i ==>
          && edges[j].id in dependences
          && DependenceLegal(dfg, model.target, model.ii, edges[j], placements, dependences[edges[j].id]))
    && Holds(model, owners,
             Claims(dfg, model.target, model.ii, placements, Only(dependences, FirstKeys(EdgeId, edges, i))))
  }

  // Checks edge i; when everything before it was in order, so is the ledger afterwards.
  method CheckEdgeAt(dfg: TargetDFG, model: ResourceModel, table: ReservationTable,
                     placements: map<nat, NodePlacement>, dependences: map<nat, MappedDependence>,
                     edges: seq<TargetEdge>, i: nat, ghost clean: bool) returns (faults: seq<Diagnostic>)
    requires model.Valid() && dfg.Valid(model.target) && |table.owners| == |model.resources|
    requires i < |edges| && edges[i] in dfg.edges && DistinctKeys(EdgeId, edges)
    requires edges[i].id in dependences ==> dependences[edges[i].id].edge == edges[i].id
    requires clean ==>
      && edges[i].id in dependences && edges[i].src in placements && edges[i].dst in placements
      && EdgesEntered(dfg, model, table.owners, placements, dependences, edges, i)
    modifies table
    ensures |table.owners| == |model.resources|
    ensures clean && faults == [] ==> EdgesEntered(dfg, model, table.owners, placements, dependences, edges, i + 1)
    ensures clean && faults != [] ==> !EdgesAcceptable(dfg, model.target, model.ii, placements, dependences)
  {
    hide EdgesEntered, EdgesAcceptable, ResourceModel.Valid, FreeLink, DependenceLinks, DependenceLegal;
    faults := [];
    if edges[i].id in dependences {
      ghost var owners := table.owners;
      faults := CheckDependence(dfg, model, table, edges[i], placements, dependences[edges[i].id]);
      if clean {
        EdgeChecked(dfg, model, owners, table.owners, placements, dependences, edges, i, faults);
      }
    }
  }

  ghost predicate AllRealised(edges: seq<TargetEdge>, placements: map<nat, NodePlacement>,
                              dependences: map<nat, MappedDependence>)
  {
    forall edge :: edge in edges ==>
      edge.src in placements && edge.dst in placements && edge.id in dependences
  }

  // Walks the edges in id order; with everything before in order, the outcome is exact.
  method CheckEdges(dfg: TargetDFG, model: ResourceModel, table: ReservationTable,
                    placements: map<nat, NodePlacement>, dependences: map<nat, MappedDependence>,
                    edges: seq<TargetEdge>, ghost complete: bool) returns (report: seq<Diagnostic>)
    requires model.Valid() && dfg.Valid(model.target) && |table.owners| == |model.resources|
    requires DistinctKeys(EdgeId, edges) && forall edge :: edge in edges ==> edge in dfg.edges
    requires forall e :: e in dependences ==> dependences[e].edge == e
    requires complete ==> AllRealised(edges, placements, dependences)
    requires complete ==> EdgesEntered(dfg, model, table.owners, placements, dependences, edges, 0)
    modifies table
    ensures |table.owners| == |model.resources|
    ensures complete && report == [] ==>
      EdgesEntered(dfg, model, table.owners, placements, dependences, edges, |edges|)
    ensures complete && report != [] ==> !EdgesAcceptable(dfg, model.target, model.ii, placements, dependences)
  {
    hide EdgesEntered, EdgesAcceptable, ResourceModel.Valid, TargetDFG.Valid, DistinctKeys;
    report := [];
    for i := 0 to |edges|
      invariant |table.owners| == |model.resources|
      invariant complete && |report| == 0 ==>
        EdgesEntered(dfg, model, table.owners, placements, dependences, edges, i)
      invariant complete && |report| != 0 ==>
        !EdgesAcceptable(dfg, model.target, model.ii, placements, dependences)
    {
      assert edges[i] in edges;
      var faults := CheckEdgeAt(dfg, model, table, placements, dependences, edges, i, complete && |report| == 0);
      report := report + faults;
    }
  }

  lemma AllEdgesAccepted(dfg: TargetDFG, model: ResourceModel, owners: seq<Option<Owner>>,
                         placements: map<nat, NodePlacement>, dependences: map<nat, MappedDependence>,
                         edges: seq<TargetEdge>)
    requires model.Valid() && dfg.UniqueIds()
    requires forall edge :: edge in edges <==> edge in dfg.edges
    requires forall e :: e in dependences ==> dfg.HasEdge(e)
    requires NodesAcceptable(dfg, model.target, model.ii, placements)
    requires EdgesEntered(dfg, model, owners, placements, dependences, edges, |edges|)
    ensures EdgesAcceptable(dfg, model.target, model.ii, placements, dependences)
  {
    AllEdgesVisited(dfg, edges, dependences);
    forall edge | edge in dfg.edges
      ensures edge.id in dependences &&
              DependenceLegal(dfg, model.target, model.ii, edge, placements, dependences[edge.id])
    {
      var j :| 0 <= j < |edges| && edges[j] == edge;
    }
    LedgerDisjoint(model, owners, dfg, placements, dependences);
  }

  lemma AllEdgesVisited(dfg: TargetDFG, edges: seq<TargetEdge>, dependences: map<nat, MappedDependence>)
    requires forall edge :: edge in edges <==> edge in dfg.edges
    requires forall e :: e in dependences ==> dfg.HasEdge(e)
    ensures Only(dependences, FirstKeys(EdgeId, edges, |edges|)) == dependences
    ensures forall edge :: edge in dfg.edges ==> exists j :: 0 <= j < |edges| && edges[j] == edge
  {
    forall e | e in dependences
      ensures e in FirstKeys(EdgeId, edges, |edges|)
    {
      var edge := dfg.Edge(e);
      assert edge in edges;
      var j :| 0 <= j < |edges| && edges[j] == edge;
      assert EdgeId(edges[j]) == e;
    }
  }

  // One more edge either enters the ledger or shows the dependences unacceptable.
  lemma EdgeChecked(dfg: TargetDFG, model: ResourceModel, owners: seq<Option<Owner>>, owners': seq<Option<Owner>>,
                    placements: map<nat, NodePlacement>, dependences: map<nat, MappedDependence>,
                    edges: seq<TargetEdge>, i: nat, faults: seq<Diagnostic>)
    requires model.Valid() && dfg.UniqueIds() && i < |edges| && edges[i] in dfg.edges
    requires DistinctKeys(EdgeId, edges)
    requires edges[i].id in dependences && edges[i].src in placements
    requires EdgesEntered(dfg, model, owners, placements, dependences, edges, i)
    requires var links := DependenceLinks(model.target, model.ii, edges[i], placements, dependences[edges[i].id]);
      && (faults == [] <==>
            && DependenceLegal(dfg, model.target, model.ii, edges[i], placements, dependences[edges[i].id])
            && forall r :: r in links ==> FreeLink(model, owners, r))
      && (faults == [] ==>
            && model.Knows(links) && Reservable(owners, model.IdsOf(links))
            && owners' == Assign(owners, model.IdsOf(links), Some(Owner(EdgeOwner, edges[i].id))))
    ensures faults == [] ==> EdgesEntered(dfg, model, owners', placements, dependences, edges, i + 1)
    ensures faults != [] ==> !EdgesAcceptable(dfg, model.target, model.ii, placements, dependences)
  {
    var edge := edges[i];
    var done := FirstKeys(EdgeId, edges, i);
    FirstKeysGrow(EdgeId, edges, i);
    if faults == [] {
      DependenceEnters(dfg, model, owners, placements, dependences, done, edge);
    } else {
      DependenceCollides(dfg, model, owners, placements, dependences, done, edge);
    }
  }

  lemma EndpointsPlaced(dfg: TargetDFG, edge: TargetEdge, placements: map<nat, NodePlacement>,
                        dependences: map<nat, MappedDependence>)
    requires edge in dfg.edges && dfg.HasNode(edge.src) && dfg.HasNode(edge.dst)
    requires placements.Keys == dfg.NodeIds() && dependences.Keys == dfg.EdgeIds()
    ensures edge.src in placements && edge.dst in placements && edge.id in dependences
  {
  }

  lemma DependenceEnters(dfg: TargetDFG, model: ResourceModel, owners: seq<Option<Owner>>,
                         placements: map<nat, NodePlacement>, dependences: map<nat, MappedDependence>,
                         done: set<nat>, edge: TargetEdge)
    requires model.Valid() && dfg.UniqueIds() && edge in dfg.edges
    requires edge.id in dependences && edge.id !in done && edge.src in placements
    requires Holds(model, owners, Claims(dfg, model.target, model.ii, placements, Only(dependences, done)))
    requires var links := DependenceLinks(model.target, model.ii, edge, placements, dependences[edge.id]);
             model.Knows(links) && Reservable(owners, model.IdsOf(links))
    ensures Holds(model,
                  Assign(owners,
                         model.IdsOf(DependenceLinks(model.target, model.ii, edge, placements, dependences[edge.id])),
                         Some(Owner(EdgeOwner, edge.id))),
                  Claims(dfg, model.target, model.ii, placements, Only(dependences, done + {edge.id})))
  {
    OnlyMore(dependences, done, edge.id);
    RealisingAdds(dfg, model.target, model.ii, placements, Only(dependences, done), edge, dependences[edge.id]);
    Enter(model, owners, Claims(dfg, model.target, model.ii, placements, Only(dependences, done)),
          Claims(dfg, model.target, model.ii, placements, Only(dependences, done + {edge.id})),
          Owner(EdgeOwner, edge.id),
          DependenceLinks(model.target, model.ii, edge, placements, dependences[edge.id]));
  }

  // A dependence the checker refuses is illegal or overlaps what is already there.
  lemma DependenceCollides(dfg: TargetDFG, model: ResourceModel, owners: seq<Option<Owner>>,
                           placements: map<nat, NodePlacement>, dependences: map<nat, MappedDependence>,
                           done: set<nat>, edge: TargetEdge)
    requires model.Valid() && dfg.UniqueIds() && edge in dfg.edges
    requires edge.id in dependences && edge.id !in done && edge.src in placements
    requires Holds(model, owners, Claims(dfg, model.target, model.ii, placements, Only(dependences, done)))
    requires !(&& DependenceLegal(dfg, model.target, model.ii, edge, placements, dependences[edge.id])
               && forall r :: r in DependenceLinks(model.target, model.ii, edge, placements, dependences[edge.id]) ==>
                    FreeLink(model, owners, r))
    ensures !EdgesAcceptable(dfg, model.target, model.ii, placements, dependences)
  {
    dfg.EdgeUnique(edge);
    var dependence := dependences[edge.id];
    if DependenceLegal(dfg, model.target, model.ii, edge, placements, dependence) {
      var r :| r in DependenceLinks(model.target, model.ii, edge, placements, dependence) && !FreeLink(model, owners, r);
      RouteClaimKnown(model, ContextFor(model.target, model.ii, edge.kind, placements[edge.src]),
                      dependence.transport.value.actions,
                      Availability(placements[edge.src].tile, dfg.Node(edge.src).outputReady.value));
      var o := owners[model.ids[r]].value;
      assert model.resources[model.ids[r]] == r;
      assert r in Claims(dfg, model.target, model.ii, placements, Only(dependences, done))(o);
      assert Only(placements, placements.Keys) == placements;
      OnlyClaims(dfg, model.target, model.ii, placements, dependences, placements.Keys, done, o, r);
      assert r in ClaimOf(dfg, model.target, model.ii, placements, dependences, Owner(EdgeOwner, edge.id));
      assert o != Owner(EdgeOwner, edge.id);
    }
  }

  // ----- The verifier -----

  /** Reports nothing exactly for a legal mapping of a well-formed graph. */
  method Verify(dfg: TargetDFG, target: TargetModel, mapping: ModuloMapping) returns (report: seq<Diagnostic>)
    requires target.Valid()
    ensures report == [] <==> dfg.Valid(target) && dfg.targetName == target.name && Legal(dfg, target, mapping)
    ensures report == [] ==> InPlainTerms(dfg, target, mapping)
  {
    if !dfg.Valid(target) || dfg.targetName != target.name {
      return [Diagnostic(InvalidTargetDFG, None, None)];
    }
    if mapping.ii == 0 {
      return [Diagnostic(InvalidII, None, None)];
    }
    if mapping.targetName != target.name {
      return [Diagnostic(TargetNameMismatch, None, None)];
    }
    var model := BuildResourceModel(target, mapping.ii);
    var table := new ReservationTable(model);
    var nodes, edges := SortBy(NodeId, dfg.nodes), SortBy(EdgeId, dfg.edges);
    SortKeeps(NodeId, dfg.nodes);
    SortKeeps(EdgeId, dfg.edges);
    DistinctInGraph(dfg, target);

    KeysAreIds(dfg);
    var badNodes, missingNodes, placements :=
      CheckEntries(NodeKey, mapping.placements, KeysOf(NodeId, dfg.nodes), dfg.NodeIds(),
                   UnknownNode, NodeDuplicatePlacement, NodeMissingPlacement, NodeFault);
    var badEdges, missingEdges, dependences :=
      CheckEntries(EdgeKey, mapping.dependences, KeysOf(EdgeId, dfg.edges), dfg.EdgeIds(),
                   UnknownEdge, EdgeDuplicateRealization, EdgeMissingRealization, EdgeFault);
    report := badNodes + badEdges + missingNodes + missingEdges;
    ghost var complete := |report| == 0;
    IdsKnown(dfg);
    StartNodes(dfg, model, placements, nodes);
    var nodeFaults := CheckNodes(dfg, model, table, placements, nodes);
    report := report + nodeFaults;
    if |nodeFaults| == 0 {
      AllNodesAccepted(dfg, model, table.owners, placements, nodes);
    }
    if |report| == 0 {
      CoversLists(NodeKey, mapping.placements, dfg.NodeIds());
      CoversLists(EdgeKey, mapping.dependences, dfg.EdgeIds());
      StartEdges(dfg, model, table.owners, placements, dependences, edges);
    }
    var edgeFaults := CheckEdges(dfg, model, table, placements, dependences, edges, |report| == 0);
    if |report| == 0 && |edgeFaults| == 0 {
      AllEdgesAccepted(dfg, model, table.owners, placements, dependences, edges);
    }
    report := report + edgeFaults;
    Verdict(dfg, target, mapping, placements, dependences, complete, |nodeFaults| == 0, |report| == 0);
    if report == [] {
      LegalInPlainTerms(dfg, target, mapping);
    }
  }

  lemma StartNodes(dfg: TargetDFG, model: ResourceModel, placements: map<nat, NodePlacement>, nodes: seq<TargetNode>)
    ensures NodesEntered(dfg, model, seq(|model.resources|, _ => None), placements, nodes, 0)
  {
    NothingClaimed(model, dfg, model.target);
    NothingYet(NodeId, nodes, placements);
  }

  lemma StartEdges(dfg: TargetDFG, model: ResourceModel, owners: seq<Option<Owner>>,
                   placements: map<nat, NodePlacement>, dependences: map<nat, MappedDependence>, edges: seq<TargetEdge>)
    requires forall edge :: edge in edges ==> edge in dfg.edges && dfg.HasNode(edge.src) && dfg.HasNode(edge.dst)
    requires placements.Keys == dfg.NodeIds() && dependences.Keys == dfg.EdgeIds()
    requires Holds(model, owners, Claims(dfg, model.target, model.ii, placements, map[]))
    ensures AllRealised(edges, placements, dependences)
    ensures EdgesEntered(dfg, model, owners, placements, dependences, edges, 0)
  {
    NothingYet(EdgeId, edges, dependences);
    forall edge | edge in edges
      ensures edge.src in placements && edge.dst in placements && edge.id in dependences
    {
      EndpointsPlaced(dfg, edge, placements, dependences);
    }
  }

  lemma KeysAreIds(dfg: TargetDFG)
    ensures forall k :: k in KeysOf(NodeId, dfg.nodes) <==> k in dfg.NodeIds()
    ensures forall k :: k in KeysOf(EdgeId, dfg.edges) <==> k in dfg.EdgeIds()
  {
    forall k | k in dfg.NodeIds()
      ensures k in KeysOf(NodeId, dfg.nodes)
    {
      var i :| 0 <= i < |dfg.nodes| && dfg.nodes[i].id == k;
      assert KeysOf(NodeId, dfg.nodes)[i] == k;
    }
    forall k | k in dfg.EdgeIds()
      ensures k in KeysOf(EdgeId, dfg.edges)
    {
      var i :| 0 <= i < |dfg.edges| && dfg.edges[i].id == k;
      assert KeysOf(EdgeId, dfg.edges)[i] == k;
    }
  }

  lemma IdsKnown(dfg: TargetDFG)
    ensures forall k :: k in dfg.NodeIds() ==> dfg.HasNode(k)
    ensures forall k :: k in dfg.EdgeIds() ==> dfg.HasEdge(k)
  {
  }

  // Coverage, node checks and edge checks together decide legality.
  lemma Verdict(dfg: TargetDFG, target: TargetModel, mapping: ModuloMapping, placements: map<nat, NodePlacement>,
                dependences: map<nat, MappedDependence>, complete: bool, nodesOk: bool, accepted: bool)
    requires 0 < mapping.ii && mapping.targetName == target.name
    requires placements == MapOf(NodeKey, mapping.placements, dfg.NodeIds())
    requires dependences == MapOf(EdgeKey, mapping.dependences, dfg.EdgeIds())
    requires complete <==> Covers(NodeKey, mapping.placements, dfg.NodeIds()) &&
                           Covers(EdgeKey, mapping.dependences, dfg.EdgeIds())
    requires nodesOk <==> NodesAcceptable(dfg, target, mapping.ii, placements)
    requires accepted ==> complete && nodesOk
    requires complete && nodesOk ==>
      (accepted <==> EdgesAcceptable(dfg, target, mapping.ii, placements, dependences))
    ensures accepted <==> Legal(dfg, target, mapping)
  {
    hide Covers, MapOf, NodesAcceptable, EdgesAcceptable, Legal;
    if accepted {
      AcceptedIsLegal(dfg, target, mapping, placements, dependences);
    }
    if Legal(dfg, target, mapping) {
      LegalIsAccepted(dfg, target, mapping, placements, dependences);
    }
  }

  lemma AcceptedIsLegal(dfg: TargetDFG, target: TargetModel, mapping: ModuloMapping,
                        placements: map<nat, NodePlacement>, dependences: map<nat, MappedDependence>)
    requires 0 < mapping.ii && mapping.targetName == target.name
    requires placements == MapOf(NodeKey, mapping.placements, dfg.NodeIds())
    requires dependences == MapOf(EdgeKey, mapping.dependences, dfg.EdgeIds())
    requires Covers(NodeKey, mapping.placements, dfg.NodeIds()) && Covers(EdgeKey, mapping.dependences, dfg.EdgeIds())
    requires NodesAcceptable(dfg, target, mapping.ii, placements)
    requires EdgesAcceptable(dfg, target, mapping.ii, placements, dependences)
    ensures Legal(dfg, target, mapping)
  {
    hide Covers, MapOf, NodeLegal, DependenceLegal, ClaimsDisjoint, Lists;
    CoversLists(NodeKey, mapping.placements, dfg.NodeIds());
    CoversLists(EdgeKey, mapping.dependences, dfg.EdgeIds());
    forall node | node in dfg.nodes
      ensures node.id in placements
    {
      assert node.id in dfg.NodeIds();
    }
    assert LegalAs(dfg, target, mapping, placements, dependences);
  }

  lemma LegalIsAccepted(dfg: TargetDFG, target: TargetModel, mapping: ModuloMapping,
                        placements: map<nat, NodePlacement>, dependences: map<nat, MappedDependence>)
    requires placements == MapOf(NodeKey, mapping.placements, dfg.NodeIds())
    requires dependences == MapOf(EdgeKey, mapping.dependences, dfg.EdgeIds())
    requires Legal(dfg, target, mapping)
    ensures Covers(NodeKey, mapping.placements, dfg.NodeIds()) && Covers(EdgeKey, mapping.dependences, dfg.EdgeIds())
    ensures NodesAcceptable(dfg, target, mapping.ii, placements)
    ensures EdgesAcceptable(dfg, target, mapping.ii, placements, dependences)
  {
    hide Covers, MapOf, NodeLegal, DependenceLegal, ClaimsDisjoint, Lists;
    var ps, ds :| LegalAs(dfg, target, mapping, ps, ds);
    ListsCovers(NodeKey, mapping.placements, ps);
    ListsCovers(EdgeKey, mapping.dependences, ds);
    NodeClaimsDisjoint(dfg, target, mapping.ii, ps, ds);
    forall edge | edge in dfg.edges
      ensures edge.id in ds
    {
      assert edge.id in dfg.EdgeIds();
    }
  }

  lemma NodeClaimsDisjoint(dfg: TargetDFG, target: TargetModel, ii: nat, placements: map<nat, NodePlacement>,
                           dependences: map<nat, MappedDependence>)
    requires ClaimsDisjoint(dfg, target, ii, placements, dependences)
    ensures ClaimsDisjoint(dfg, target, ii, placements, map[])
  {
    forall o1, o2, r |
      && r in ClaimOf(dfg, target, ii, placements, map[], o1)
      && r in ClaimOf(dfg, target, ii, placements, map[], o2)
      ensures o1 == o2
    {
      assert r in ClaimOf(dfg, target, ii, placements, dependences, o1);
      assert r in ClaimOf(dfg, target, ii, placements, dependences, o2);
    }
  }
}
