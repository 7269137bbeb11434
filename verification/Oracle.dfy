// The exhaustive oracle: it answers Infeasible exactly when nothing at all can be accepted.

module Oracle {
  import opened Wrappers
  import opened Mesh
  import opened Target
  import opened Resources
  import opened Reservation
  import opened Ordering
  import opened Mapping
  import opened Ledger
  import opened Walks
  import opened RouteStates
  import opened Realisability
  import Verifier
  import Builder

  datatype OracleStatus = Feasible | Infeasible | UnsupportedOracleSize | InvalidInput

  datatype OracleOptions = OracleOptions(maxNodes: nat, maxEdges: nat, maxTiles: nat, maxII: nat)

  datatype OracleResult = OracleResult(status: OracleStatus, mapping: Option<ModuloMapping>)

  /** One partial route of the depth-first enumeration. */
  datatype RouteProgress = RouteProgress(
    tile: TileCoord,
    slot: nat,
    elapsed: U32,
    actions: seq<TransportAction>,
    linkResources: seq<nat>,
    visited: set<nat>)

  /** What the mapping verifier accepts at a given II. */
  ghost predicate Accepted(dfg: TargetDFG, target: TargetModel, ii: nat, mapping: ModuloMapping) {
    mapping.ii == ii && dfg.Valid(target) && dfg.targetName == target.name && Legal(dfg, target, mapping)
  }

  ghost function Occupied(model: ResourceModel, owners: seq<Option<Owner>>): set<Resource>
    requires model.Valid() && |owners| == |model.resources|
  {
    set r | r in model.ids && owners[model.ids[r]].Some?
  }

  lemma OccupiedAfter(model: ResourceModel, owners: seq<Option<Owner>>, units: seq<Resource>, owner: Owner)
    requires model.Valid() && |owners| == |model.resources| && model.Knows(units)
    ensures Occupied(model, Assign(owners, model.IdsOf(units), Some(owner))) == Occupied(model, owners) + Members(units)
  {
    model.IdsAreFaithful(units);
    var owners' := Assign(owners, model.IdsOf(units), Some(owner));
    forall r
      ensures r in Occupied(model, owners') <==> r in Occupied(model, owners) + Members(units)
    {
      if r in units {
        assert r in model.ids;
      }
      if r in model.ids {
        assert model.resources[model.ids[r]] == r;
      }
    }
  }

  lemma ReservableIsUnoccupied(model: ResourceModel, owners: seq<Option<Owner>>, units: seq<Resource>)
    requires model.Valid() && |owners| == |model.resources| && model.Knows(units) && Distinct(units)
    ensures Reservable(owners, model.IdsOf(units)) <==> Members(units) !! Occupied(model, owners)
    ensures Reservable(owners, model.IdsOf(units)) <==> forall r :: r in units ==> Verifier.FreeLink(model, owners, r)
  {
    Verifier.ReservableIsFree(model, owners, units);
    var occupied := Occupied(model, owners);
    assert forall r :: r in units ==> (Verifier.FreeLink(model, owners, r) <==> r !in occupied);
    assert Members(units) !! occupied <==> forall r :: r in Members(units) ==> r !in occupied;
    assert forall r :: r in Members(units) <==> r in units;
  }

  // A detour-free way to finish a route over unoccupied links.
  ghost predicate Completes(ctx: RouteContext, moves: seq<Move>, here: Availability, visited: set<RouteState>,
                            occupied: set<Resource>, goal: TileCoord)
    requires 0 < ctx.ii
  {
    && Walk(ctx, moves, here).Some?
    && Simple(ctx, moves, here, visited)
    && Members(WalkLinks(ctx, moves, here)) !! occupied
    && Walk(ctx, moves, here).value.tile == goal
    && Walk(ctx, moves, here).value.elapsed <= U32_MAX
  }

  // Realised transports as dependences, and with the memory edges added.
  ghost function DependencesOf(dfg: TargetDFG, transports: map<nat, TransportPlan>): map<nat, MappedDependence> {
    map e | e in transports && dfg.HasEdge(e) ::
      MappedDependence(e, dfg.Edge(e).kind, transports[e].requiredSeparation, Some(transports[e]))
  }

  function DependenceFor(target: TargetModel, edge: TargetEdge, transports: map<nat, TransportPlan>): MappedDependence
    requires edge.kind != MemoryEdge ==> edge.id in transports
  {
    if edge.kind == MemoryEdge
    then MappedDependence(edge.id, edge.kind, target.MemorySeparation(edge.dependence), None)
    else MappedDependence(edge.id, edge.kind, transports[edge.id].requiredSeparation, Some(transports[edge.id]))
  }

  ghost predicate ValueEdgesBefore(dfg: TargetDFG, k: nat, keys: set<nat>)
    requires k <= |dfg.edges|
  {
    forall e :: e in keys <==> exists j :: 0 <= j < k && dfg.edges[j].id == e && dfg.edges[j].kind != MemoryEdge
  }

  lemma ValueEdgeKeyNew(dfg: TargetDFG, k: nat, keys: set<nat>)
    requires k < |dfg.edges| && dfg.UniqueIds() && ValueEdgesBefore(dfg, k, keys)
    ensures dfg.edges[k].id !in keys
    ensures dfg.edges[k].kind == MemoryEdge ==> ValueEdgesBefore(dfg, k + 1, keys)
    ensures dfg.edges[k].kind != MemoryEdge ==> ValueEdgesBefore(dfg, k + 1, keys + {dfg.edges[k].id})
  {
    forall e
      ensures dfg.edges[k].kind == MemoryEdge ==>
        (e in keys <==> exists j :: 0 <= j < k + 1 && dfg.edges[j].id == e && dfg.edges[j].kind != MemoryEdge)
      ensures dfg.edges[k].kind != MemoryEdge ==>
        (e in keys + {dfg.edges[k].id} <==>
           exists j :: 0 <= j < k + 1 && dfg.edges[j].id == e && dfg.edges[j].kind != MemoryEdge)
    {
    }
  }

  // Routing one more edge keeps the table in step with the transports.
  lemma TransportAdds(dfg: TargetDFG, transports: map<nat, TransportPlan>, edge: TargetEdge, plan: TransportPlan)
    requires dfg.UniqueIds() && edge in dfg.edges && edge.id !in transports
    ensures edge.id !in DependencesOf(dfg, transports)
    ensures DependencesOf(dfg, transports[edge.id := plan]) ==
      DependencesOf(dfg, transports)[edge.id := MappedDependence(edge.id, edge.kind, plan.requiredSeparation, Some(plan))]
  {
    dfg.EdgeUnique(edge);
    hide TargetDFG.UniqueIds;
  }

  lemma TransportEnters(dfg: TargetDFG, model: ResourceModel, owners: seq<Option<Owner>>,
                        placements: map<nat, NodePlacement>, transports: map<nat, TransportPlan>,
                        edge: TargetEdge, plan: TransportPlan)
    requires model.Valid() && dfg.UniqueIds() && edge in dfg.edges && edge.id !in transports && edge.src in placements
    requires Holds(model, owners, Claims(dfg, model.target, model.ii, placements, DependencesOf(dfg, transports)))
    requires var links := PlanLinks(model.target, model.ii, edge, placements, plan);
             model.Knows(links) && Reservable(owners, model.IdsOf(links))
    ensures Holds(model,
                  Assign(owners, model.IdsOf(PlanLinks(model.target, model.ii, edge, placements, plan)),
                         Some(Owner(EdgeOwner, edge.id))),
                  Claims(dfg, model.target, model.ii, placements, DependencesOf(dfg, transports[edge.id := plan])))
  {
    dfg.EdgeUnique(edge);
    hide *;
    var dependence := MappedDependence(edge.id, edge.kind, plan.requiredSeparation, Some(plan));
    var before, after := DependencesOf(dfg, transports), DependencesOf(dfg, transports[edge.id := plan]);
    TransportAdds(dfg, transports, edge, plan);
    RealisingAdds(dfg, model.target, model.ii, placements, before, edge, dependence);
    Enter(model, owners, Claims(dfg, model.target, model.ii, placements, before),
          Claims(dfg, model.target, model.ii, placements, after), Owner(EdgeOwner, edge.id),
          PlanLinks(model.target, model.ii, edge, placements, plan));
  }

  // The dependences of a finished search.
  function AllDependences(dfg: TargetDFG, target: TargetModel, transports: map<nat, TransportPlan>)
    : map<nat, MappedDependence>
    requires dfg.UniqueIds()
    requires ValueEdgesBefore(dfg, |dfg.edges|, transports.Keys)
  {
    map e | e in KeysOf(EdgeId, dfg.edges) && dfg.HasEdge(e) ::
      assert dfg.Edge(e) in dfg.edges;
      DependenceFor(target, dfg.Edge(e), transports)
  }

  lemma DependenceOfEdge(dfg: TargetDFG, target: TargetModel, transports: map<nat, TransportPlan>, edge: TargetEdge)
    requires dfg.UniqueIds() && edge in dfg.edges
    requires ValueEdgesBefore(dfg, |dfg.edges|, transports.Keys)
    ensures edge.kind != MemoryEdge <==> edge.id in transports
    ensures edge.id in AllDependences(dfg, target, transports)
    ensures AllDependences(dfg, target, transports)[edge.id] == DependenceFor(target, edge, transports)
  {
    Verifier.KeysAreIds(dfg);
    dfg.EdgeUnique(edge);
    assert edge.id in dfg.EdgeIds();
  }

  lemma AllDependencesFor(dfg: TargetDFG, target: TargetModel, transports: map<nat, TransportPlan>)
    requires dfg.UniqueIds()
    requires ValueEdgesBefore(dfg, |dfg.edges|, transports.Keys)
    ensures AllDependences(dfg, target, transports).Keys == dfg.EdgeIds()
    ensures forall edge :: edge in dfg.edges ==>
      && (edge.kind != MemoryEdge <==> edge.id in transports)
      && edge.id in AllDependences(dfg, target, transports)
      && AllDependences(dfg, target, transports)[edge.id] == DependenceFor(target, edge, transports)
  {
    Verifier.KeysAreIds(dfg);
    Verifier.IdsKnown(dfg);
    assert AllDependences(dfg, target, transports).Keys == dfg.EdgeIds();
    hide AllDependences, ValueEdgesBefore, TargetDFG.EdgeIds, TargetDFG.UniqueIds;
    forall edge | edge in dfg.edges
      ensures (edge.kind != MemoryEdge <==> edge.id in transports)
      ensures edge.id in AllDependences(dfg, target, transports)
      ensures AllDependences(dfg, target, transports)[edge.id] == DependenceFor(target, edge, transports)
    {
      DependenceOfEdge(dfg, target, transports, edge);
    }
  }

  // A finished search describes a legal mapping.
  lemma LeafLegal(dfg: TargetDFG, model: ResourceModel, owners: seq<Option<Owner>>,
                  placements: map<nat, NodePlacement>, transports: map<nat, TransportPlan>)
    requires model.Valid() && dfg.UniqueIds() && EndpointsIn(dfg, dfg.NodeIds())
    requires placements.Keys == dfg.NodeIds()
    requires forall node :: node in dfg.nodes ==> node.id in placements && NodeLegal(model.target, model.ii, node, placements[node.id])
    requires ValueEdgesBefore(dfg, |dfg.edges|, transports.Keys)
    requires forall edge :: edge in dfg.edges && edge.id in transports && edge.kind != MemoryEdge ==>
      RoutesEdge(dfg, model.target, model.ii, edge, placements, transports[edge.id])
    requires Holds(model, owners, Claims(dfg, model.target, model.ii, placements, DependencesOf(dfg, transports)))
    ensures LegalMaps(dfg, model.target, model.ii, placements, AllDependences(dfg, model.target, transports))
  {
    var dependences := AllDependences(dfg, model.target, transports);
    AllDependencesFor(dfg, model.target, transports);
    forall edge | edge in dfg.edges
      ensures DependenceLegal(dfg, model.target, model.ii, edge, placements, dependences[edge.id])
    {
      assert dependences[edge.id] == DependenceFor(model.target, edge, transports);
      if edge.kind != MemoryEdge {
        assert RoutesEdge(dfg, model.target, model.ii, edge, placements, transports[edge.id]);
      }
    }
    assert PartsLegal(dfg, model.target, model.ii, placements, dependences);
    SameClaims(dfg, model, owners, placements, transports);
    LedgerDisjoint(model, owners, dfg, placements, dependences);
  }

  // Memory edges claim nothing.
  lemma SameClaim(dfg: TargetDFG, target: TargetModel, ii: nat, placements: map<nat, NodePlacement>,
                  transports: map<nat, TransportPlan>, o: Owner)
    requires dfg.UniqueIds() && ValueEdgesBefore(dfg, |dfg.edges|, transports.Keys)
    ensures ClaimOf(dfg, target, ii, placements, DependencesOf(dfg, transports), o) ==
            ClaimOf(dfg, target, ii, placements, AllDependences(dfg, target, transports), o)
  {
    hide AllDependences, ValueEdgesBefore, TargetDFG.UniqueIds, Footprint, LinksOf, FindNode, FindEdge;
    if o.kind == EdgeOwner && dfg.HasEdge(o.id) {
      DependenceOfEdge(dfg, target, transports, dfg.Edge(o.id));
    }
  }

  lemma SameClaims(dfg: TargetDFG, model: ResourceModel, owners: seq<Option<Owner>>,
                   placements: map<nat, NodePlacement>, transports: map<nat, TransportPlan>)
    requires dfg.UniqueIds() && ValueEdgesBefore(dfg, |dfg.edges|, transports.Keys)
    requires Holds(model, owners, Claims(dfg, model.target, model.ii, placements, DependencesOf(dfg, transports)))
    ensures Holds(model, owners,
                  Claims(dfg, model.target, model.ii, placements, AllDependences(dfg, model.target, transports)))
  {
    var claims := Claims(dfg, model.target, model.ii, placements, DependencesOf(dfg, transports));
    var claims' := Claims(dfg, model.target, model.ii, placements, AllDependences(dfg, model.target, transports));
    forall o
      ensures claims(o) == claims'(o)
    {
      SameClaim(dfg, model.target, model.ii, placements, transports, o);
    }
    SameHolds(model, owners, claims, claims');
  }

  lemma SameHolds(model: ResourceModel, owners: seq<Option<Owner>>, claims: Owner -> seq<Resource>,
                  claims': Owner -> seq<Resource>)
    requires Holds(model, owners, claims)
    requires forall o :: claims(o) == claims'(o)
    ensures Holds(model, owners, claims')
  {
  }

  lemma RoutesStay(dfg: TargetDFG, target: TargetModel, ii: nat, placements: map<nat, NodePlacement>,
                   transports: map<nat, TransportPlan>, edge: TargetEdge, plan: TransportPlan)
    requires dfg.UniqueIds() && edge in dfg.edges && edge.kind != MemoryEdge
    requires forall e :: e in dfg.edges ==> dfg.HasNode(e.src) && e.src in placements && e.dst in placements
    requires RoutesEdge(dfg, target, ii, edge, placements, plan)
    requires forall e :: e in dfg.edges && e.id in transports && e.kind != MemoryEdge ==>
      RoutesEdge(dfg, target, ii, e, placements, transports[e.id])
    ensures forall e :: e in dfg.edges && e.id in transports[edge.id := plan] && e.kind != MemoryEdge ==>
      RoutesEdge(dfg, target, ii, e, placements, transports[edge.id := plan][e.id])
  {
    dfg.EdgeUnique(edge);
    forall e | e in dfg.edges && e.id in transports[edge.id := plan] && e.kind != MemoryEdge
      ensures RoutesEdge(dfg, target, ii, e, placements, transports[edge.id := plan][e.id])
    {
      dfg.EdgeUnique(e);
    }
  }

  lemma EraseAdded<T>(m: map<nat, T>, k: nat, value: T)
    requires k !in m
    ensures m[k := value] - {k} == m
  {
  }

  // ----- Partial routes -----

  function Here(progress: RouteProgress): Availability {
    Availability(progress.tile, progress.elapsed)
  }

  // A partial route from `start` over free links that never entered a state twice.
  ghost predicate OnTrack(ctx: RouteContext, model: ResourceModel, owners: seq<Option<Owner>>, start: Availability,
                          progress: RouteProgress, visited: set<RouteState>)
    requires model.Valid() && ctx.target == model.target && ctx.ii == model.ii
  {
    && Verifier.Tracked(ctx, model, owners, progress.actions, start, Here(progress), progress.linkResources)
    && progress.slot == ctx.SlotAt(progress.elapsed)
    && (forall s :: s in visited ==> InRange(ctx.target, ctx.ii, s))
    && progress.visited == (set s | s in visited :: StateId(ctx.target, s))
    && StateAt(ctx, Here(progress)) in visited
    && LeftBehind(LinksOf(ctx, progress.actions), visited, StateAt(ctx, Here(progress)))
  }

  // The links driven so far start from states already left.
  ghost predicate LeftBehind(links: seq<Resource>, visited: set<RouteState>, here: RouteState) {
    forall r :: r in links ==> RouteState(r.tile, r.slot) in visited && RouteState(r.tile, r.slot) != here
  }

  // Membership of a state is decided by its id.
  lemma VisitedById(target: TargetModel, ii: nat, visited: set<RouteState>, state: RouteState)
    requires 0 < target.rows && 0 < target.cols
    requires InRange(target, ii, state) && forall s :: s in visited ==> InRange(target, ii, s)
    ensures StateId(target, state) in (set s | s in visited :: StateId(target, s)) <==> state in visited
  {
    hide StateId, InRange;
    if StateId(target, state) in (set s | s in visited :: StateId(target, s)) {
      var s :| s in visited && StateId(target, s) == StateId(target, state);
      IdsDistinguish(target, ii, s, state);
    }
  }

  lemma VisitedBound(target: TargetModel, ii: nat, visited: set<RouteState>)
    requires 0 < target.rows && 0 < target.cols
    requires forall s :: s in visited ==> InRange(target, ii, s)
    ensures |set s | s in visited :: StateId(target, s)| <= StateCount(target, ii)
  {
    hide StateId, InRange, StateCount;
    var ids := set s | s in visited :: StateId(target, s);
    forall id | id in ids
      ensures id < StateCount(target, ii)
    {
      var s :| s in visited && StateId(target, s) == id;
      StateRoundTrip(target, ii, s);
    }
    IdSetBound(ids, StateCount(target, ii));
  }

  // A move ends on the array.
  lemma MoveInRange(ctx: RouteContext, move: Move, here: Availability)
    requires 0 < ctx.ii && InArray(here.tile, ctx.target.rows, ctx.target.cols)
    requires Take(ctx, move, here).Some?
    ensures InRange(ctx.target, ctx.ii, StateAt(ctx, Take(ctx, move, here).value))
  {
    hide Advance;
    if move.Hop? {
      NeighborIsSymmetric(here.tile, move.direction, ctx.target.rows, ctx.target.cols);
    }
  }

  // The slot after a move is one hop, or one cycle, further.
  lemma NextSlot(ctx: RouteContext, elapsed: nat, delta: nat)
    requires 0 < ctx.ii
    ensures Advance(ctx.SlotAt(elapsed), delta, ctx.ii) == ctx.SlotAt(elapsed + delta)
  {
    AdvanceCompose(ctx.issueSlot, elapsed, delta, ctx.ii);
  }

  // The partial route after one more move.
  function Moved(ctx: RouteContext, progress: RouteProgress, move: Move, next: Availability, links: seq<nat>): RouteProgress
    requires 0 < ctx.ii && next.elapsed <= U32_MAX
    requires move.Wait? ==> progress.elapsed < U32_MAX
  {
    RouteProgress(next.tile, ctx.SlotAt(next.elapsed), next.elapsed,
                  Extend(ctx, progress.actions, Here(progress), move),
                  progress.linkResources + links,
                  progress.visited + {StateId(ctx.target, StateAt(ctx, next))})
  }

  ghost function IdsOfMove(ctx: RouteContext, model: ResourceModel, move: Move, here: Availability): seq<nat>
    requires 0 < ctx.ii
  {
    if move.Hop? && ctx.LinkAt(here.tile, move.direction, here.elapsed) in model.ids
    then [model.ids[ctx.LinkAt(here.tile, move.direction, here.elapsed)]] else []
  }

  ghost predicate MoveFree(ctx: RouteContext, model: ResourceModel, owners: seq<Option<Owner>>, move: Move,
                           here: Availability)
    requires 0 < ctx.ii
  {
    move.Hop? ==> Verifier.FreeLink(model, owners, ctx.LinkAt(here.tile, move.direction, here.elapsed))
  }

  // A link driven from here cannot have been driven before.
  lemma LinkIsNew(ctx: RouteContext, model: ResourceModel, owners: seq<Option<Owner>>, start: Availability,
                  progress: RouteProgress, visited: set<RouteState>, direction: Direction)
    requires model.Valid() && ctx.target == model.target && ctx.ii == model.ii
    requires OnTrack(ctx, model, owners, start, progress, visited)
    ensures ctx.LinkAt(progress.tile, direction, progress.elapsed) !in LinksOf(ctx, progress.actions)
    ensures ctx.LinkAt(progress.tile, direction, progress.elapsed) in model.ids ==>
      model.ids[ctx.LinkAt(progress.tile, direction, progress.elapsed)] !in progress.linkResources
  {
    hide Advance, Exists, Verifier.Routable, LinksOf, Follow;
    var r := ctx.LinkAt(progress.tile, direction, progress.elapsed);
    assert RouteState(r.tile, r.slot) == StateAt(ctx, Here(progress));
    if r in model.ids {
      model.IdsAreFaithful(LinksOf(ctx, progress.actions));
      assert model.resources[model.ids[r]] == r;
    }
  }

  lemma MoveTracked(ctx: RouteContext, model: ResourceModel, owners: seq<Option<Owner>>, start: Availability,
                    progress: RouteProgress, visited: set<RouteState>, move: Move, next: Availability)
    requires model.Valid() && ctx.target == model.target && ctx.ii == model.ii && |owners| == |model.resources|
    requires OnTrack(ctx, model, owners, start, progress, visited)
    requires Take(ctx, move, Here(progress)) == Some(next) && next.elapsed <= U32_MAX
    requires MoveFree(ctx, model, owners, move, Here(progress))
    ensures progress.elapsed <= U32_MAX && (move.Wait? ==> progress.elapsed < U32_MAX)
    ensures var actions := Extend(ctx, progress.actions, Here(progress), move);
      && actions != []
      && Verifier.Tracked(ctx, model, owners, actions, start, next,
                          progress.linkResources + IdsOfMove(ctx, model, move, Here(progress)))
      && LinksOf(ctx, actions) == LinksOf(ctx, progress.actions) + LinksOfMove(ctx, move, Here(progress))
  {
    hide Advance, Exists, RouteContext.SlotAt, Follow, LinksOf, Extend;
    var here := Here(progress);
    ExtendFollows(ctx, progress.actions, start, here, move);
    var links, more := LinksOf(ctx, progress.actions), LinksOfMove(ctx, move, here);
    if move.Hop? {
      LinkIsNew(ctx, model, owners, start, progress, visited, move.direction);
      DistinctConcat(links, more);
    } else {
      assert links + more == links;
    }
    forall k | 0 <= k < |links + more|
      ensures Verifier.FreeLink(model, owners, (links + more)[k])
    {
    }
  }

  // Moving to a fresh state over a free link stays on track.
  lemma MoveOnTrack(ctx: RouteContext, model: ResourceModel, owners: seq<Option<Owner>>, start: Availability,
                    progress: RouteProgress, visited: set<RouteState>, move: Move, next: Availability)
    requires model.Valid() && ctx.target == model.target && ctx.ii == model.ii && |owners| == |model.resources|
    requires OnTrack(ctx, model, owners, start, progress, visited)
    requires InArray(progress.tile, ctx.target.rows, ctx.target.cols)
    requires Take(ctx, move, Here(progress)) == Some(next) && next.elapsed <= U32_MAX
    requires MoveFree(ctx, model, owners, move, Here(progress))
    requires StateAt(ctx, next) !in visited
    ensures progress.elapsed <= U32_MAX && (move.Wait? ==> progress.elapsed < U32_MAX)
    ensures OnTrack(ctx, model, owners, start,
                    Moved(ctx, progress, move, next, IdsOfMove(ctx, model, move, Here(progress))),
                    visited + {StateAt(ctx, next)})
    ensures InArray(next.tile, ctx.target.rows, ctx.target.cols)
  {
    hide Advance, Exists, Follow, LinksOf, Extend, Verifier.Tracked, RouteContext.SlotAt, StateId;
    MoveTracked(ctx, model, owners, start, progress, visited, move, next);
    MoveInRange(ctx, move, Here(progress));
    var actions := Extend(ctx, progress.actions, Here(progress), move);
    assert LeftBehind(LinksOf(ctx, actions), visited + {StateAt(ctx, next)}, StateAt(ctx, next)) by {
      if move.Hop? {
        var r := ctx.LinkAt(progress.tile, move.direction, progress.elapsed);
        assert RouteState(r.tile, r.slot) == StateAt(ctx, Here(progress));
      }
    }
  }

  /** Realises the edges of a placed graph one after another; placements stay fixed throughout. */
  class EdgeSearch {
    const dfg: TargetDFG
    const target: TargetModel
    const ii: nat
    const model: ResourceModel
    const table: ReservationTable
    const placements: map<nat, NodePlacement>
    var transports: map<nat, TransportPlan>
    var answer: Option<ModuloMapping>

    constructor (dfg: TargetDFG, target: TargetModel, model: ResourceModel, table: ReservationTable,
                 placements: map<nat, NodePlacement>)
      ensures this.dfg == dfg && this.target == target && this.ii == model.ii && this.model == model
      ensures this.table == table && this.placements == placements
      ensures transports == map[] && answer == None
    {
      this.dfg, this.target, this.ii, this.model := dfg, target, model.ii, model;
      this.table, this.placements := table, placements;
      this.transports, this.answer := map[], None;
    }

    // Every node is legally placed.
    ghost predicate Ready() {
      && 0 < ii && target.Valid() && dfg.Valid(target)
      && model.Valid() && model.target == target && model.ii == ii
      && placements.Keys == dfg.NodeIds()
      && EndpointsIn(dfg, placements.Keys)
      && forall node :: node in dfg.nodes ==> node.id in placements && NodeLegal(target, ii, node, placements[node.id])
    }

    // The value edges before k are routed, and the table says exactly that.
    ghost predicate Consistent(k: nat, transports: map<nat, TransportPlan>, owners: seq<Option<Owner>>) {
      && Ready() && k <= |dfg.edges|
      && ValueEdgesBefore(dfg, k, transports.Keys)
      && (forall edge :: edge in dfg.edges && edge.id in transports && edge.kind != MemoryEdge ==>
            RoutesEdge(dfg, target, ii, edge, placements, transports[edge.id]))
      && Holds(model, owners, Claims(dfg, target, ii, placements, DependencesOf(dfg, transports)))
    }

    // A legal transport for value edge k whose links carry the ids listed.
    ghost predicate Fits(k: nat, plan: TransportPlan, links: seq<nat>) {
      && Ready() && k < |dfg.edges| && dfg.edges[k].kind != MemoryEdge
      && RoutesEdge(dfg, target, ii, dfg.edges[k], placements, plan)
      && model.Knows(RouteUnits(k, plan))
      && links == model.IdsOf(RouteUnits(k, plan))
    }

    ghost function RouteUnits(k: nat, plan: TransportPlan): seq<Resource> {
      if Ready() && k < |dfg.edges| then PlanLinks(target, ii, dfg.edges[k], placements, plan) else []
    }

    // The edges from k on cannot be realised (a graph made for another target never is).
    ghost predicate Hopeless(k: nat, occupied: set<Resource>) {
      Ready() && k <= |dfg.edges| && dfg.targetName == target.name ==>
        !CanRealise(dfg, target, ii, placements, k, occupied)
    }

    ghost function Taken(owners: seq<Option<Owner>>): set<Resource> {
      if model.Valid() && |owners| == |model.resources| then Occupied(model, owners) else {}
    }

    ghost predicate Found()
      reads this
    {
      answer.Some? && Accepted(dfg, target, ii, answer.value)
    }

    // A complete assignment: build the mapping and let the verifier have the last word.
    method Finish() returns (found: bool)
      requires Consistent(|dfg.edges|, transports, table.owners)
      modifies this`answer
      ensures found ==> Found()
      ensures !found ==> answer == old(answer) && dfg.targetName != target.name
    {
      LeafLegal(dfg, model, table.owners, placements, transports);
      hide LegalMaps, AllDependences, TargetModel.Valid;
      var dependences := AllDependences(dfg, target, transports);
      Builder.LegalIsBuildable(dfg, target, ii, placements, dependences);
      var candidate := Builder.BuildInGraphOrder(dfg, ii, placements, dependences);
      var report := Verifier.Verify(dfg, target, candidate.value);
      if dfg.targetName == target.name {
        assert LegalAs(dfg, target, candidate.value, placements, dependences);
      }
      if report == [] {
        answer := candidate;
        return true;
      }
      return false;
    }

    // Reserves and records one transport for edge k.
    method EnterRoute(k: nat, plan: TransportPlan, links: seq<nat>) returns (delta: Option<Delta>)
      requires Consistent(k, transports, table.owners) && Fits(k, plan, links)
      modifies this`transports, table
      ensures delta.None? ==>
        && transports == old(transports) && table.owners == old(table.owners)
        && !(Members(RouteUnits(k, plan)) !! Taken(old(table.owners)))
      ensures delta.Some? ==>
        && Reservable(old(table.owners), links)
        && delta.value == Delta(Owner(EdgeOwner, dfg.edges[k].id), links)
        && dfg.edges[k].id !in old(transports) && transports == old(transports)[dfg.edges[k].id := plan]
        && table.owners == Assign(old(table.owners), links, Some(delta.value.owner))
        && Taken(table.owners) == Taken(old(table.owners)) + Members(RouteUnits(k, plan))
        && Consistent(k + 1, transports, table.owners)
    {
      RouteReservable(k, plan, links, table.owners);
      RouteRecorded(k, plan, links, table.owners, transports);
      RoutesKept(k, plan, links, transports);
      hide ValueEdgesBefore, Holds, Claims, DependencesOf, RoutesEdge, Reservable, Members, Occupied, Ready, RouteUnits;
      delta := table.TryReserve(links, Owner(EdgeOwner, dfg.edges[k].id));
      if delta.Some? {
        transports := transports[dfg.edges[k].id := plan];
      }
    }

    lemma RouteReservable(k: nat, plan: TransportPlan, links: seq<nat>, owners: seq<Option<Owner>>)
      requires Fits(k, plan, links) && |owners| == |model.resources|
      ensures Reservable(owners, links) <==> Members(RouteUnits(k, plan)) !! Occupied(model, owners)
      ensures Reservable(owners, links) ==>
        Occupied(model, Assign(owners, links, Some(Owner(EdgeOwner, dfg.edges[k].id)))) ==
        Occupied(model, owners) + Members(RouteUnits(k, plan))
    {
      var units := RouteUnits(k, plan);
      assert Distinct(units);
      ReservableIsUnoccupied(model, owners, units);
      OccupiedAfter(model, owners, units, Owner(EdgeOwner, dfg.edges[k].id));
    }

    lemma RouteRecorded(k: nat, plan: TransportPlan, links: seq<nat>, owners: seq<Option<Owner>>,
                        transports: map<nat, TransportPlan>)
      requires Fits(k, plan, links) && ValueEdgesBefore(dfg, k, transports.Keys)
      requires Holds(model, owners, Claims(dfg, target, ii, placements, DependencesOf(dfg, transports)))
      ensures dfg.edges[k].id !in transports
      ensures ValueEdgesBefore(dfg, k + 1, transports[dfg.edges[k].id := plan].Keys)
      ensures Reservable(owners, links) ==>
        Holds(model, Assign(owners, links, Some(Owner(EdgeOwner, dfg.edges[k].id))),
              Claims(dfg, target, ii, placements, DependencesOf(dfg, transports[dfg.edges[k].id := plan])))
    {
      var edge := dfg.edges[k];
      ValueEdgeKeyNew(dfg, k, transports.Keys);
      assert transports[edge.id := plan].Keys == transports.Keys + {edge.id};
      hide ValueEdgesBefore, Holds, Claims, DependencesOf, RoutesEdge, Reservable, TargetDFG.UniqueIds;
      if Reservable(owners, links) {
        TransportEnters(dfg, model, owners, placements, transports, edge, plan);
      }
    }

    lemma RoutesKept(k: nat, plan: TransportPlan, links: seq<nat>, transports: map<nat, TransportPlan>)
      requires Fits(k, plan, links)
      requires forall edge :: edge in dfg.edges && edge.id in transports && edge.kind != MemoryEdge ==>
        RoutesEdge(dfg, target, ii, edge, placements, transports[edge.id])
      ensures var transports' := transports[dfg.edges[k].id := plan];
        forall edge :: edge in dfg.edges && edge.id in transports' && edge.kind != MemoryEdge ==>
          RoutesEdge(dfg, target, ii, edge, placements, transports'[edge.id])
    {
      RoutesStay(dfg, target, ii, placements, transports, dfg.edges[k], plan);
    }

    lemma FitsValueEdge(k: nat, plan: TransportPlan, links: seq<nat>)
      requires Fits(k, plan, links)
      ensures k < |dfg.edges| && dfg.edges[k].kind != MemoryEdge
    {
    }

    // With this transport for edge k, the later edges cannot be realised around what is occupied.
    ghost predicate Exhausted(k: nat, plan: TransportPlan, occupied: set<Resource>) {
      Members(RouteUnits(k, plan)) !! occupied ==> Hopeless(k + 1, occupied + Members(RouteUnits(k, plan)))
    }

    lemma ExhaustedWhen(k: nat, plan: TransportPlan, occupied: set<Resource>)
      requires !(Members(RouteUnits(k, plan)) !! occupied) || Hopeless(k + 1, occupied + Members(RouteUnits(k, plan)))
      ensures Exhausted(k, plan, occupied)
    {
      hide RouteUnits, Hopeless, Members;
    }

    // Tries one transport for edge k and everything that follows from it.
    method Consume(k: nat, plan: TransportPlan, links: seq<nat>) returns (found: bool)
      requires Consistent(k, transports, table.owners) && Fits(k, plan, links)
      modifies this`transports, this`answer, table
      ensures found ==> Found()
      ensures !found ==> transports == old(transports) && table.owners == old(table.owners) && answer == old(answer)
      ensures !found ==> Exhausted(k, plan, Taken(old(table.owners)))
      decreases |dfg.edges| - k, 0, 0
    {
      hide *;
      FitsValueEdge(k, plan, links);
      ghost var owners, before := table.owners, transports;
      ghost var taken := Taken(table.owners);
      var delta := EnterRoute(k, plan, links);
      if delta.None? {
        ExhaustedWhen(k, plan, taken);
        return false;
      }
      found := RealiseEdges(k + 1);
      if !found {
        LeaveRoute(dfg.edges[k].id, delta.value, plan, owners, before);
        ExhaustedWhen(k, plan, taken);
      }
    }

    // Forgets a transport entered before, giving back the earlier state.
    method LeaveRoute(edge: nat, delta: Delta, ghost plan: TransportPlan, ghost owners: seq<Option<Owner>>,
                      ghost before: map<nat, TransportPlan>)
      requires edge !in before && transports == before[edge := plan]
      requires Reservable(owners, delta.resources)
      requires table.owners == Assign(owners, delta.resources, Some(delta.owner))
      modifies this`transports, table
      ensures transports == before && table.owners == owners
    {
      EraseAdded(before, edge, plan);
      transports := transports - {edge};
      UndoRestores(owners, delta.resources, delta.owner);
      var undone := table.Undo(delta);
    }

    // Realises the edges from k on in every possible way.
    method RealiseEdges(k: nat) returns (found: bool)
      requires Consistent(k, transports, table.owners)
      modifies this`transports, this`answer, table
      ensures found ==> Found()
      ensures !found ==> transports == old(transports) && table.owners == old(table.owners) && answer == old(answer)
      ensures !found ==> Hopeless(k, Taken(old(table.owners)))
      decreases |dfg.edges| - k, StateCount(target, ii) + 1, 1
    {
      hide *;
      EdgesLeft(k, transports, table.owners);
      if k == |dfg.edges| {
        found := Finish();
        NothingLeft(Taken(table.owners));
        return;
      }
      if dfg.edges[k].kind == MemoryEdge {
        SkipMemoryEdge(k, transports, table.owners);
        found := RealiseEdges(k + 1);
        return;
      }
      found := RouteCandidates(k);
    }

    lemma EdgesLeft(k: nat, transports: map<nat, TransportPlan>, owners: seq<Option<Owner>>)
      requires Consistent(k, transports, owners)
      ensures k <= |dfg.edges|
    {
    }

    lemma NothingLeft(occupied: set<Resource>)
      ensures dfg.targetName != target.name ==> Hopeless(|dfg.edges|, occupied)
    {
    }

    // Memory edges need no transport.
    lemma SkipMemoryEdge(k: nat, transports: map<nat, TransportPlan>, owners: seq<Option<Owner>>)
      requires k < |dfg.edges| && dfg.edges[k].kind == MemoryEdge && Consistent(k, transports, owners)
      ensures Consistent(k + 1, transports, owners)
      ensures Hopeless(k + 1, Taken(owners)) ==> Hopeless(k, Taken(owners))
    {
      ValueEdgeKeyNew(dfg, k, transports.Keys);
      hide ValueEdgesBefore, Holds, Claims, DependencesOf, RoutesEdge, TargetDFG.UniqueIds;
    }

    // ----- Depth-first route enumeration -----

    function Ctx(k: nat): RouteContext
      requires k < |dfg.edges| && dfg.edges[k].src in placements
    {
      ContextFor(target, ii, dfg.edges[k].kind, placements[dfg.edges[k].src])
    }

    function ReadyOffset(k: nat): nat
      requires k < |dfg.edges| && dfg.HasNode(dfg.edges[k].src)
    {
      var ready := dfg.Node(dfg.edges[k].src).outputReady;
      if ready.Some? then ready.value else 0
    }

    // Edge k is a value edge of a ready graph.
    ghost predicate Routing(k: nat) {
      && Ready() && k < |dfg.edges| && dfg.edges[k].kind != MemoryEdge
      && dfg.HasNode(dfg.edges[k].src) && dfg.Node(dfg.edges[k].src).outputReady.Some?
      && dfg.edges[k].src in placements && dfg.edges[k].dst in placements
      && 0 < target.rows && 0 < target.cols && 0 < target.hopLatency
    }

    lemma RoutingEdge(k: nat)
      requires Ready() && k < |dfg.edges| && dfg.edges[k].kind != MemoryEdge
      ensures Routing(k)
      ensures InArray(placements[dfg.edges[k].src].tile, target.rows, target.cols)
    {
      var edge := dfg.edges[k];
      assert edge in dfg.edges;
      var node := dfg.Node(edge.src);
      assert NodeLegal(target, ii, node, placements[node.id]);
    }

    ghost function Start(k: nat): Availability
      requires Routing(k)
    {
      Availability(placements[dfg.edges[k].src].tile, ReadyOffset(k))
    }

    ghost function Goal(k: nat): TileCoord
      requires Routing(k)
    {
      placements[dfg.edges[k].dst].tile
    }

    // Finishing the partial route by `moves` leaves later edges unrealisable.
    ghost predicate DeadEnd(k: nat, progress: RouteProgress, visited: set<RouteState>, occupied: set<Resource>,
                            moves: seq<Move>)
      requires Routing(k)
    {
      Completes(Ctx(k), moves, Here(progress), visited, occupied, Goal(k)) ==>
        Hopeless(k + 1, occupied + Members(LinksOf(Ctx(k), progress.actions)) +
                        Members(WalkLinks(Ctx(k), moves, Here(progress))))
    }

    ghost predicate NoWayOn(k: nat, progress: RouteProgress, visited: set<RouteState>, occupied: set<Resource>)
      requires Routing(k)
    {
      forall moves :: moves != [] || progress.actions != [] ==> DeadEnd(k, progress, visited, occupied, moves)
    }

    ghost predicate NoWayVia(k: nat, progress: RouteProgress, visited: set<RouteState>, occupied: set<Resource>,
                             move: Move)
      requires Routing(k)
    {
      forall moves :: moves != [] && moves[0] == move ==> DeadEnd(k, progress, visited, occupied, moves)
    }

    ghost predicate Blocked(k: nat, progress: RouteProgress, visited: set<RouteState>, occupied: set<Resource>,
                            move: Move)
      requires Routing(k)
    {
      var next := Take(Ctx(k), move, Here(progress));
      || next.None?
      || StateAt(Ctx(k), next.value) in visited
      || next.value.elapsed > U32_MAX
      || (move.Hop? && Ctx(k).LinkAt(progress.tile, move.direction, progress.elapsed) in occupied)
    }

    // Nothing completes through a blocked move.
    lemma BlockedVia(k: nat, progress: RouteProgress, visited: set<RouteState>, occupied: set<Resource>, move: Move)
      requires Routing(k) && Blocked(k, progress, visited, occupied, move)
      ensures NoWayVia(k, progress, visited, occupied, move)
    {
      hide Advance, Hopeless, CanRealise, RouteContext.SlotAt, RouteContext.LinkAt, RouteContext.Onward, LinksOf, Walk,
           WalkLinks, TargetDFG.Valid;
      var ctx, here := Ctx(k), Here(progress);
      forall moves | moves != [] && moves[0] == move
        ensures DeadEnd(k, progress, visited, occupied, moves)
      {
        WalkStep(ctx, moves, here);
        if Walk(ctx, moves, here).Some? {
          WalkMonotone(ctx, moves[1..], Take(ctx, move, here).value);
          if move.Hop? {
            FirstLink(ctx, moves, here);
          }
        }
      }
    }

    // If nothing completes from the next state, nothing completes through the move to it.
    lemma NextVia(k: nat, progress: RouteProgress, visited: set<RouteState>, occupied: set<Resource>, move: Move,
                  next: Availability, progress': RouteProgress)
      requires Routing(k) && Take(Ctx(k), move, Here(progress)) == Some(next)
      requires Here(progress') == next && progress'.actions != []
      requires LinksOf(Ctx(k), progress'.actions) ==
               LinksOf(Ctx(k), progress.actions) + LinksOfMove(Ctx(k), move, Here(progress))
      requires NoWayOn(k, progress', visited + {StateAt(Ctx(k), next)}, occupied)
      ensures NoWayVia(k, progress, visited, occupied, move)
    {
      hide Advance, Hopeless, CanRealise, RouteContext.SlotAt, RouteContext.LinkAt, RouteContext.Onward, LinksOf, Walk,
           WalkLinks, TargetDFG.Valid, LinksOfMove;
      var ctx, here := Ctx(k), Here(progress);
      forall moves | moves != [] && moves[0] == move
        ensures DeadEnd(k, progress, visited, occupied, moves)
      {
        WalkStep(ctx, moves, here);
        if Completes(ctx, moves, here, visited, occupied, Goal(k)) {
          var rest := moves[1..];
          var driven, link, later := Members(LinksOf(ctx, progress.actions)), Members(LinksOfMove(ctx, move, here)),
                                     Members(WalkLinks(ctx, rest, next));
          MembersConcat(LinksOf(ctx, progress.actions), LinksOfMove(ctx, move, here));
          MembersConcat(LinksOfMove(ctx, move, here), WalkLinks(ctx, rest, next));
          assert Completes(ctx, rest, next, visited + {StateAt(ctx, next)}, occupied, Goal(k));
          assert DeadEnd(k, progress', visited + {StateAt(ctx, next)}, occupied, rest);
          assert occupied + (driven + link) + later == occupied + driven + (link + later);
        }
      }
    }

    // Finishing right here, or going on in one of the five directions, covers everything.
    lemma AllWays(k: nat, progress: RouteProgress, visited: set<RouteState>, occupied: set<Resource>)
      requires Routing(k)
      requires progress.actions != [] ==> DeadEnd(k, progress, visited, occupied, [])
      requires forall direction :: NoWayVia(k, progress, visited, occupied, Hop(direction))
      requires NoWayVia(k, progress, visited, occupied, Wait)
      ensures NoWayOn(k, progress, visited, occupied)
    {
      hide DeadEnd, Routing;
      forall moves | moves != [] || progress.actions != []
        ensures DeadEnd(k, progress, visited, occupied, moves)
      {
        if moves != [] {
          match moves[0]
          case Wait =>
          case Hop(direction) => assert NoWayVia(k, progress, visited, occupied, Hop(direction));
        }
      }
    }

    // A partial route for edge k under the present table.
    ghost predicate Exploring(k: nat, progress: RouteProgress, visited: set<RouteState>,
                              transports: map<nat, TransportPlan>, owners: seq<Option<Owner>>)
    {
      && Consistent(k, transports, owners) && Routing(k) && |owners| == |model.resources|
      && InArray(progress.tile, target.rows, target.cols)
      && OnTrack(Ctx(k), model, owners, Start(k), progress, visited)
    }

    // A partial route that has reached the consumer is a transport to try.
    lemma ArrivedFits(k: nat, progress: RouteProgress, visited: set<RouteState>, owners: seq<Option<Owner>>,
                      plan: TransportPlan)
      requires Routing(k) && |owners| == |model.resources|
      requires OnTrack(Ctx(k), model, owners, Start(k), progress, visited)
      requires progress.actions != [] && progress.tile == Goal(k)
      requires plan == TransportPlan(dfg.edges[k].id, DomainOf(dfg.edges[k].kind), progress.actions, progress.elapsed)
      ensures Fits(k, plan, progress.linkResources)
      ensures RouteUnits(k, plan) == LinksOf(Ctx(k), progress.actions)
    {
      hide Advance, RouteContext.SlotAt, LeftBehind, TargetDFG.Valid, Verifier.FreeLink;
    }

    // Links driven over free resources are not among the occupied ones.
    lemma DrivenUnoccupied(k: nat, progress: RouteProgress, visited: set<RouteState>, owners: seq<Option<Owner>>)
      requires Routing(k) && |owners| == |model.resources|
      requires OnTrack(Ctx(k), model, owners, Start(k), progress, visited)
      ensures Members(LinksOf(Ctx(k), progress.actions)) !! Occupied(model, owners)
    {
      hide Advance, RouteContext.SlotAt, LeftBehind, Ready, TargetDFG.Valid;
    }

    lemma ArrivedDeadEnd(k: nat, progress: RouteProgress, visited: set<RouteState>, occupied: set<Resource>,
                         plan: TransportPlan)
      requires Routing(k) && RouteUnits(k, plan) == LinksOf(Ctx(k), progress.actions)
      requires Members(LinksOf(Ctx(k), progress.actions)) !! occupied
      requires Exhausted(k, plan, occupied)
      ensures DeadEnd(k, progress, visited, occupied, [])
    {
      hide Advance, RouteContext.SlotAt, TargetDFG.Valid, Hopeless, LinksOf, RouteUnits;
      var driven := Members(LinksOf(Ctx(k), progress.actions));
      assert Members<Resource>([]) == {};
      assert occupied + driven + {} == occupied + driven;
    }

    // Holding at the producer's own tile is a transport without links.
    function HoldPlan(k: nat): TransportPlan
      requires k < |dfg.edges| && dfg.HasNode(dfg.edges[k].src) && dfg.edges[k].src in placements
      requires ReadyOffset(k) < U32_MAX
    {
      var domain, ready := DomainOf(dfg.edges[k].kind), ReadyOffset(k);
      TransportPlan(dfg.edges[k].id, domain,
                    [VirtualHold(domain, placements[dfg.edges[k].src].tile, ready, ready + 1)], ready + 1)
    }

    lemma HoldFits(k: nat)
      requires Routing(k) && ReadyOffset(k) < U32_MAX && Start(k).tile == Goal(k)
      ensures Fits(k, HoldPlan(k), [])
      ensures RouteUnits(k, HoldPlan(k)) == []
    {
      hide Advance, RouteContext.SlotAt, TargetDFG.Valid;
      var plan := HoldPlan(k);
      assert plan.actions[..0] == [];
      assert Follow(Ctx(k), [], Start(k)) == Some(Start(k));
      assert LinksOf(Ctx(k), plan.actions) == [];
    }

    // Tries to stop here, then every way of going on.
    method Visit(k: nat, progress: RouteProgress, ghost visited: set<RouteState>) returns (found: bool)
      requires Routing(k) && Exploring(k, progress, visited, transports, table.owners)
      requires progress.actions == [] ==> Here(progress) == Start(k)
      modifies this`transports, this`answer, table
      ensures found ==> Found()
      ensures !found ==> transports == old(transports) && table.owners == old(table.owners) && answer == old(answer)
      ensures !found ==> NoWayOn(k, progress, visited, Taken(table.owners))
      ensures !found && progress.actions == [] && Start(k).tile == Goal(k) && ReadyOffset(k) < U32_MAX ==>
        Hopeless(k + 1, Taken(table.owners))
      decreases |dfg.edges| - k, StateCount(target, ii) - |progress.visited|, 4
    {
      hide *;
      ExploringBound(k, progress, visited, transports, table.owners);
      found := Stop(k, progress, visited);
      if found {
        return;
      }
      found := TryHops(k, progress, visited);
      if found {
        return;
      }
      found := TryWait(k, progress, visited);
      if !found {
        AllWays(k, progress, visited, Taken(table.owners));
      }
    }

    method Stop(k: nat, progress: RouteProgress, ghost visited: set<RouteState>) returns (found: bool)
      requires Routing(k) && Exploring(k, progress, visited, transports, table.owners)
      requires progress.actions == [] ==> Here(progress) == Start(k)
      modifies this`transports, this`answer, table
      ensures found ==> Found()
      ensures !found ==> transports == old(transports) && table.owners == old(table.owners) && answer == old(answer)
      ensures !found && progress.actions != [] ==> DeadEnd(k, progress, visited, Taken(table.owners), [])
      ensures !found && progress.actions == [] && Start(k).tile == Goal(k) && ReadyOffset(k) < U32_MAX ==>
        Hopeless(k + 1, Taken(table.owners))
      decreases |dfg.edges| - k, 0, 3
    {
      hide *;
      RoutingParts(k);
      found := false;
      if progress.tile == placements[dfg.edges[k].dst].tile {
        if progress.actions == [] {
          found := HoldHere(k, progress, visited);
        } else {
          found := Arrive(k, progress, visited);
        }
      } else {
        StillOnTheWay(k, progress, visited, Taken(table.owners));
      }
    }

    lemma StillOnTheWay(k: nat, progress: RouteProgress, visited: set<RouteState>, occupied: set<Resource>)
      requires Routing(k)
      requires progress.tile != placements[dfg.edges[k].dst].tile
      ensures DeadEnd(k, progress, visited, occupied, [])
      ensures Here(progress) == Start(k) ==> Start(k).tile != Goal(k)
    {
      hide Hopeless, LinksOf, Ready, RouteContext.SlotAt;
    }

    // Nothing driven yet: a plain hold serves a consumer on the producer's own tile.
    method HoldHere(k: nat, progress: RouteProgress, ghost visited: set<RouteState>) returns (found: bool)
      requires Routing(k) && Exploring(k, progress, visited, transports, table.owners)
      modifies this`transports, this`answer, table
      ensures found ==> Found()
      ensures !found ==> transports == old(transports) && table.owners == old(table.owners) && answer == old(answer)
      ensures !found && Start(k).tile == Goal(k) && ReadyOffset(k) < U32_MAX ==> Hopeless(k + 1, Taken(table.owners))
      decreases |dfg.edges| - k, 0, 2
    {
      hide *;
      RoutingParts(k);
      ExploringParts(k, progress, visited, transports, table.owners);
      found := false;
      var producer, consumer := placements[dfg.edges[k].src], placements[dfg.edges[k].dst];
      if producer.tile == consumer.tile && ReadyOffset(k) < U32_MAX {
        HoldFits(k);
        found := Consume(k, HoldPlan(k), []);
        if !found {
          HeldDeadEnd(k, HoldPlan(k), Taken(table.owners));
        }
      }
    }

    // The partial route has arrived: offer it as the transport.
    method Arrive(k: nat, progress: RouteProgress, ghost visited: set<RouteState>) returns (found: bool)
      requires Routing(k) && Exploring(k, progress, visited, transports, table.owners)
      requires progress.actions != [] && progress.tile == placements[dfg.edges[k].dst].tile
      modifies this`transports, this`answer, table
      ensures found ==> Found()
      ensures !found ==> transports == old(transports) && table.owners == old(table.owners) && answer == old(answer)
      ensures !found ==> DeadEnd(k, progress, visited, Taken(table.owners), [])
      decreases |dfg.edges| - k, 0, 2
    {
      hide *;
      RoutingParts(k);
      ExploringParts(k, progress, visited, transports, table.owners);
      var plan := TransportPlan(dfg.edges[k].id, DomainOf(dfg.edges[k].kind), progress.actions, progress.elapsed);
      ArrivedFits(k, progress, visited, table.owners, plan);
      DrivenUnoccupied(k, progress, visited, table.owners);
      found := Consume(k, plan, progress.linkResources);
      if !found {
        ArrivedDeadEnd(k, progress, visited, Taken(table.owners), plan);
      }
    }

    lemma HeldDeadEnd(k: nat, plan: TransportPlan, occupied: set<Resource>)
      requires RouteUnits(k, plan) == [] && Exhausted(k, plan, occupied)
      ensures Hopeless(k + 1, occupied)
    {
      hide Hopeless, RouteUnits;
      assert Members<Resource>([]) == {};
      assert occupied + {} == occupied;
    }

    lemma RoutingParts(k: nat)
      requires Routing(k)
      ensures 0 < ii && model.Valid() && model.target == target && model.ii == ii
      ensures k < |dfg.edges| && dfg.HasNode(dfg.edges[k].src)
      ensures dfg.edges[k].src in placements && dfg.edges[k].dst in placements
      ensures Start(k) == Availability(placements[dfg.edges[k].src].tile, ReadyOffset(k))
      ensures Goal(k) == placements[dfg.edges[k].dst].tile
      ensures Ctx(k).ii == ii && Ctx(k).target == target && Ctx(k).domain == DomainOf(dfg.edges[k].kind)
      ensures Ctx(k).issueSlot == placements[dfg.edges[k].src].issueSlot
    {
    }

    lemma ExploringParts(k: nat, progress: RouteProgress, visited: set<RouteState>,
                         transports: map<nat, TransportPlan>, owners: seq<Option<Owner>>)
      requires Routing(k) && Exploring(k, progress, visited, transports, owners)
      ensures Consistent(k, transports, owners) && |owners| == |model.resources| && model.Valid()
      ensures Taken(owners) == Occupied(model, owners)
      ensures Here(progress) == Availability(progress.tile, progress.elapsed)
      ensures OnTrack(Ctx(k), model, owners, Start(k), progress, visited)
      ensures InArray(progress.tile, target.rows, target.cols)
    {
    }

    lemma ExploringBound(k: nat, progress: RouteProgress, visited: set<RouteState>,
                         transports: map<nat, TransportPlan>, owners: seq<Option<Owner>>)
      requires Routing(k) && Exploring(k, progress, visited, transports, owners)
      ensures |progress.visited| <= StateCount(target, ii)
    {
      hide Consistent, Verifier.Tracked, LeftBehind, LinksOf, StateId, StateCount, InRange, Ready;
      VisitedBound(target, ii, visited);
    }

    // The four neighbours in the order the oracle tries them.
    method TryHops(k: nat, progress: RouteProgress, ghost visited: set<RouteState>) returns (found: bool)
      requires Routing(k) && Exploring(k, progress, visited, transports, table.owners)
      modifies this`transports, this`answer, table
      ensures found ==> Found()
      ensures !found ==> transports == old(transports) && table.owners == old(table.owners) && answer == old(answer)
      ensures !found ==> forall direction :: NoWayVia(k, progress, visited, Taken(table.owners), Hop(direction))
      decreases |dfg.edges| - k, StateCount(target, ii) - |progress.visited|, 2
    {
      hide *;
      found := false;
      var directions := [North, East, South, West];
      for i := 0 to |directions|
        invariant transports == old(transports) && table.owners == old(table.owners) && answer == old(answer)
        invariant forall j :: 0 <= j < i ==> NoWayVia(k, progress, visited, Taken(table.owners), Hop(directions[j]))
      {
        found := TryHop(k, progress, visited, directions[i]);
        if found {
          return;
        }
      }
      EveryDirection(k, progress, visited, Taken(table.owners));
    }

    lemma EveryDirection(k: nat, progress: RouteProgress, visited: set<RouteState>, occupied: set<Resource>)
      requires Routing(k)
      requires var directions := [North, East, South, West];
        forall j :: 0 <= j < 4 ==> NoWayVia(k, progress, visited, occupied, Hop(directions[j]))
      ensures forall direction :: NoWayVia(k, progress, visited, occupied, Hop(direction))
    {
      hide NoWayVia, Routing;
      var directions := [North, East, South, West];
      forall direction
        ensures NoWayVia(k, progress, visited, occupied, Hop(direction))
      {
        match direction
        case North => assert NoWayVia(k, progress, visited, occupied, Hop(directions[0]));
        case East => assert NoWayVia(k, progress, visited, occupied, Hop(directions[1]));
        case South => assert NoWayVia(k, progress, visited, occupied, Hop(directions[2]));
        case West => assert NoWayVia(k, progress, visited, occupied, Hop(directions[3]));
      }
    }

    method TryHop(k: nat, progress: RouteProgress, ghost visited: set<RouteState>, direction: Direction)
      returns (found: bool)
      requires Routing(k) && Exploring(k, progress, visited, transports, table.owners)
      modifies this`transports, this`answer, table
      ensures found ==> Found()
      ensures !found ==> transports == old(transports) && table.owners == old(table.owners) && answer == old(answer)
      ensures !found ==> NoWayVia(k, progress, visited, Taken(table.owners), Hop(direction))
      decreases |dfg.edges| - k, StateCount(target, ii) - |progress.visited|, 1
    {
      hide *;
      found := false;
      var next := HopFrom(k, progress, visited, direction);
      if next.None? {
        BlockedVia(k, progress, visited, Taken(table.owners), Hop(direction));
      } else {
        found := GoOn(k, progress, visited, Hop(direction), next.value);
      }
    }

    method TryWait(k: nat, progress: RouteProgress, ghost visited: set<RouteState>) returns (found: bool)
      requires Routing(k) && Exploring(k, progress, visited, transports, table.owners)
      modifies this`transports, this`answer, table
      ensures found ==> Found()
      ensures !found ==> transports == old(transports) && table.owners == old(table.owners) && answer == old(answer)
      ensures !found ==> NoWayVia(k, progress, visited, Taken(table.owners), Wait)
      decreases |dfg.edges| - k, StateCount(target, ii) - |progress.visited|, 1
    {
      hide *;
      found := false;
      var next := WaitFrom(k, progress, visited);
      if next.None? {
        BlockedVia(k, progress, visited, Taken(table.owners), Wait);
      } else {
        found := GoOn(k, progress, visited, Wait, next.value);
      }
    }

    // One move takes the partial route on to a state it has not visited.
    ghost predicate Reaches(k: nat, progress: RouteProgress, visited: set<RouteState>, owners: seq<Option<Owner>>,
                            move: Move, progress': RouteProgress)
      requires Routing(k)
    {
      && Take(Ctx(k), move, Here(progress)) == Some(Here(progress'))
      && progress'.actions != []
      && LinksOf(Ctx(k), progress'.actions) ==
         LinksOf(Ctx(k), progress.actions) + LinksOfMove(Ctx(k), move, Here(progress))
      && InArray(progress'.tile, target.rows, target.cols)
      && |owners| == |model.resources|
      && OnTrack(Ctx(k), model, owners, Start(k), progress', visited + {StateAt(Ctx(k), Here(progress'))})
      && |progress.visited| < |progress'.visited| <= StateCount(target, ii)
    }

    method GoOn(k: nat, progress: RouteProgress, ghost visited: set<RouteState>, ghost move: Move,
                progress': RouteProgress) returns (found: bool)
      requires Routing(k) && Exploring(k, progress, visited, transports, table.owners)
      requires Reaches(k, progress, visited, table.owners, move, progress')
      modifies this`transports, this`answer, table
      ensures found ==> Found()
      ensures !found ==> transports == old(transports) && table.owners == old(table.owners) && answer == old(answer)
      ensures !found ==> NoWayVia(k, progress, visited, Taken(table.owners), move)
      decreases |dfg.edges| - k, StateCount(target, ii) - |progress.visited|, 0
    {
      hide *;
      RoutingParts(k);
      ReachesParts(k, progress, visited, move, progress', transports, table.owners);
      ghost var visited' := visited + {StateAt(Ctx(k), Here(progress'))};
      found := Visit(k, progress', visited');
      if !found {
        NextVia(k, progress, visited, Taken(table.owners), move, Here(progress'), progress');
      }
    }

    lemma ReachesParts(k: nat, progress: RouteProgress, visited: set<RouteState>, move: Move, progress': RouteProgress,
                       transports: map<nat, TransportPlan>, owners: seq<Option<Owner>>)
      requires Routing(k) && Exploring(k, progress, visited, transports, owners)
      requires Reaches(k, progress, visited, owners, move, progress')
      ensures Exploring(k, progress', visited + {StateAt(Ctx(k), Here(progress'))}, transports, owners)
      ensures Take(Ctx(k), move, Here(progress)) == Some(Here(progress')) && progress'.actions != []
      ensures LinksOf(Ctx(k), progress'.actions) ==
              LinksOf(Ctx(k), progress.actions) + LinksOfMove(Ctx(k), move, Here(progress))
      ensures |progress.visited| < |progress'.visited| <= StateCount(target, ii)
    {
      hide OnTrack, LinksOf, Routing, StateCount, Consistent;
    }

    lemma MoveReaches(k: nat, progress: RouteProgress, visited: set<RouteState>, owners: seq<Option<Owner>>,
                      move: Move, next: Availability)
      requires Routing(k) && |owners| == |model.resources|
      requires OnTrack(Ctx(k), model, owners, Start(k), progress, visited)
      requires InArray(progress.tile, target.rows, target.cols)
      requires Take(Ctx(k), move, Here(progress)) == Some(next) && next.elapsed <= U32_MAX
      requires MoveFree(Ctx(k), model, owners, move, Here(progress))
      requires StateAt(Ctx(k), next) !in visited
      ensures progress.elapsed <= U32_MAX && (move.Wait? ==> progress.elapsed < U32_MAX)
      ensures Reaches(k, progress, visited, owners, move,
                      Moved(Ctx(k), progress, move, next, IdsOfMove(Ctx(k), model, move, Here(progress))))
    {
      hide Verifier.Tracked, LeftBehind, LinksOf, Extend, Advance, StateId, InRange, StateCount, Ready, MoveFree, Neighbor;
      RoutingParts(k);
      var ctx := Ctx(k);
      MoveTracked(ctx, model, owners, Start(k), progress, visited, move, next);
      MoveOnTrack(ctx, model, owners, Start(k), progress, visited, move, next);
      MoveInRange(ctx, move, Here(progress));
      VisitedById(target, ii, visited, StateAt(ctx, next));
      VisitedBound(target, ii, visited + {StateAt(ctx, next)});
      MoreVisited(progress.visited, StateId(target, StateAt(ctx, next)));
    }

    lemma MoreVisited(visited: set<nat>, id: nat)
      requires id !in visited
      ensures |visited + {id}| == |visited| + 1
    {
    }

    // The partial route one hop further, unless the hop is blocked.
    method HopFrom(k: nat, progress: RouteProgress, ghost visited: set<RouteState>, direction: Direction)
      returns (next: Option<RouteProgress>)
      requires Routing(k) && Exploring(k, progress, visited, transports, table.owners)
      ensures next.None? ==> Blocked(k, progress, visited, Taken(table.owners), Hop(direction))
      ensures next.Some? ==> Reaches(k, progress, visited, table.owners, Hop(direction), next.value)
    {
      hide *;
      RoutingParts(k);
      ExploringParts(k, progress, visited, transports, table.owners);
      HopLookup(k, progress, visited, table.owners, direction);
      var domain := DomainOf(dfg.edges[k].kind);
      var nextTile := Neighbor(progress.tile, direction, target.rows, target.cols);
      if nextTile.None? {
        return None;
      }
      var launchSlot := Advance(placements[dfg.edges[k].src].issueSlot, progress.elapsed, ii);
      var resource := model.LinkResource(domain, progress.tile, direction, launchSlot);
      if resource.None? {
        return None;
      }
      table.FreeMeans(resource.value);
      if !table.IsFree(resource.value) || resource.value in progress.linkResources {
        return None;
      }
      HopArrival(k, progress, visited, table.owners, direction, nextTile.value, resource.value);
      var nextSlot := Advance(progress.slot, target.hopLatency, ii);
      var nextId := StateId(target, RouteState(nextTile.value, nextSlot));
      if nextId in progress.visited || progress.elapsed > U32_MAX - target.hopLatency {
        return None;
      }
      next := Some(RouteProgress(nextTile.value, nextSlot, progress.elapsed + target.hopLatency,
                                 progress.actions + [LinkStep(domain, progress.tile, direction, progress.elapsed)],
                                 progress.linkResources + [resource.value],
                                 progress.visited + {nextId}));
    }

    // What the lookups of a hop decide.
    lemma HopLookup(k: nat, progress: RouteProgress, visited: set<RouteState>, owners: seq<Option<Owner>>,
                    direction: Direction)
      requires Routing(k) && |owners| == |model.resources|
      requires OnTrack(Ctx(k), model, owners, Start(k), progress, visited)
      requires InArray(progress.tile, target.rows, target.cols)
      ensures var domain := DomainOf(dfg.edges[k].kind);
        var nextTile := Neighbor(progress.tile, direction, target.rows, target.cols);
        var resource := model.LinkResource(domain, progress.tile, direction,
                                           Advance(placements[dfg.edges[k].src].issueSlot, progress.elapsed, ii));
        && (nextTile.None? || resource.None? || owners[resource.value].Some? ==>
              Blocked(k, progress, visited, Occupied(model, owners), Hop(direction)))
        && (resource.Some? ==> resource.value < |owners| && resource.value !in progress.linkResources)
    {
      hide LinksOf, Advance, StateId, InRange, StateCount, Ready, Neighbor, LeftBehind, Verifier.Tracked;
      RoutingParts(k);
      var ctx := Ctx(k);
      Verifier.LinkLookup(ctx, model, progress.tile, direction, progress.elapsed);
      LinkIsNew(ctx, model, owners, Start(k), progress, visited, direction);
    }

    // Where a hop over a free link leads.
    lemma HopArrival(k: nat, progress: RouteProgress, visited: set<RouteState>, owners: seq<Option<Owner>>,
                     direction: Direction, nextTile: TileCoord, resource: nat)
      requires Routing(k) && |owners| == |model.resources|
      requires OnTrack(Ctx(k), model, owners, Start(k), progress, visited)
      requires InArray(progress.tile, target.rows, target.cols)
      requires Neighbor(progress.tile, direction, target.rows, target.cols) == Some(nextTile)
      requires model.LinkResource(DomainOf(dfg.edges[k].kind), progress.tile, direction,
                                  Advance(placements[dfg.edges[k].src].issueSlot, progress.elapsed, ii)) == Some(resource)
      requires resource < |owners| && owners[resource].None?
      ensures var nextSlot := Advance(progress.slot, target.hopLatency, ii);
        var nextId := StateId(target, RouteState(nextTile, nextSlot));
        if nextId in progress.visited || progress.elapsed > U32_MAX - target.hopLatency
        then Blocked(k, progress, visited, Occupied(model, owners), Hop(direction))
        else Reaches(k, progress, visited, owners, Hop(direction),
                     RouteProgress(nextTile, nextSlot, progress.elapsed + target.hopLatency,
                                   progress.actions + [LinkStep(DomainOf(dfg.edges[k].kind), progress.tile, direction, progress.elapsed)],
                                   progress.linkResources + [resource],
                                   progress.visited + {nextId}))
    {
      hide Reaches, Verifier.Tracked, LeftBehind, LinksOf, Advance, StateId, InRange, StateCount, Ready, Neighbor, Exists;
      RoutingParts(k);
      var ctx, move := Ctx(k), Hop(direction);
      Verifier.LinkLookup(ctx, model, progress.tile, direction, progress.elapsed);
      var next := Availability(nextTile, progress.elapsed + target.hopLatency);
      NextSlot(ctx, progress.elapsed, target.hopLatency);
      assert Take(ctx, move, Here(progress)) == Some(next);
      MoveInRange(ctx, move, Here(progress));
      VisitedById(target, ii, visited, StateAt(ctx, next));
      if StateAt(ctx, next) !in visited && next.elapsed <= U32_MAX {
        MoveReaches(k, progress, visited, owners, move, next);
      }
    }

    // Where waiting a cycle leads.
    lemma WaitArrival(k: nat, progress: RouteProgress, visited: set<RouteState>, owners: seq<Option<Owner>>)
      requires Routing(k) && |owners| == |model.resources|
      requires OnTrack(Ctx(k), model, owners, Start(k), progress, visited)
      requires InArray(progress.tile, target.rows, target.cols)
      ensures var nextSlot := Advance(progress.slot, 1, ii);
        var nextId := StateId(target, RouteState(progress.tile, nextSlot));
        if nextId in progress.visited || progress.elapsed == U32_MAX
        then Blocked(k, progress, visited, Occupied(model, owners), Wait)
        else Reaches(k, progress, visited, owners, Wait,
                     RouteProgress(progress.tile, nextSlot, progress.elapsed + 1,
                                   Extend(Ctx(k), progress.actions, Here(progress), Wait),
                                   progress.linkResources, progress.visited + {nextId}))
    {
      hide Reaches, Verifier.Tracked, LeftBehind, LinksOf, Advance, StateId, InRange, StateCount, Ready, Extend;
      RoutingParts(k);
      var ctx := Ctx(k);
      var next := Availability(progress.tile, progress.elapsed + 1);
      NextSlot(ctx, progress.elapsed, 1);
      assert Take(ctx, Wait, Here(progress)) == Some(next);
      MoveInRange(ctx, Wait, Here(progress));
      VisitedById(target, ii, visited, StateAt(ctx, next));
      if StateAt(ctx, next) !in visited && next.elapsed <= U32_MAX {
        MoveReaches(k, progress, visited, owners, Wait, next);
        assert progress.linkResources + [] == progress.linkResources;
      }
    }

    // The partial route one cycle later, unless that state was visited.
    method WaitFrom(k: nat, progress: RouteProgress, ghost visited: set<RouteState>)
      returns (next: Option<RouteProgress>)
      requires Routing(k) && Exploring(k, progress, visited, transports, table.owners)
      ensures next.None? ==> Blocked(k, progress, visited, Taken(table.owners), Wait)
      ensures next.Some? ==> Reaches(k, progress, visited, table.owners, Wait, next.value)
    {
      hide *;
      RoutingParts(k);
      ExploringParts(k, progress, visited, transports, table.owners);
      WaitArrival(k, progress, visited, table.owners);
      var nextSlot := Advance(progress.slot, 1, ii);
      var nextId := StateId(target, RouteState(progress.tile, nextSlot));
      if nextId in progress.visited || progress.elapsed == U32_MAX {
        return None;
      }
      var actions := Extend(Ctx(k), progress.actions, Here(progress), Wait);
      next := Some(RouteProgress(progress.tile, nextSlot, progress.elapsed + 1, actions, progress.linkResources,
                                 progress.visited + {nextId}));
    }

    // Every transport for edge k, one after another.
    method RouteCandidates(k: nat) returns (found: bool)
      requires Consistent(k, transports, table.owners) && k < |dfg.edges| && dfg.edges[k].kind != MemoryEdge
      modifies this`transports, this`answer, table
      ensures found ==> Found()
      ensures !found ==> transports == old(transports) && table.owners == old(table.owners) && answer == old(answer)
      ensures !found ==> Hopeless(k, Taken(table.owners))
      decreases |dfg.edges| - k, StateCount(target, ii) + 1, 0
    {
      hide *;
      StartParts(k, transports, table.owners);
      RoutingParts(k);
      var producer, ready := placements[dfg.edges[k].src], ReadyOffset(k);
      var slot := Advance(producer.issueSlot, ready, ii);
      var start := RouteProgress(producer.tile, slot, ready, [], [], {StateId(target, RouteState(producer.tile, slot))});
      StartExploring(k, start, transports, table.owners);
      found := Visit(k, start, {StateAt(Ctx(k), Start(k))});
      if !found {
        NoWayAtAll(k, start, Taken(table.owners));
      }
    }

    lemma StartParts(k: nat, transports: map<nat, TransportPlan>, owners: seq<Option<Owner>>)
      requires Consistent(k, transports, owners) && k < |dfg.edges| && dfg.edges[k].kind != MemoryEdge
      ensures Routing(k) && ReadyOffset(k) <= U32_MAX && |owners| == |model.resources|
      ensures InArray(placements[dfg.edges[k].src].tile, target.rows, target.cols)
    {
      RoutingEdge(k);
    }

    lemma StartExploring(k: nat, start: RouteProgress, transports: map<nat, TransportPlan>, owners: seq<Option<Owner>>)
      requires Routing(k) && Consistent(k, transports, owners) && |owners| == |model.resources|
      requires InArray(placements[dfg.edges[k].src].tile, target.rows, target.cols)
      requires start.tile == placements[dfg.edges[k].src].tile && start.elapsed == ReadyOffset(k)
      requires start.slot == Advance(placements[dfg.edges[k].src].issueSlot, start.elapsed, ii)
      requires start.actions == [] && start.linkResources == []
      requires start.visited == {StateId(target, RouteState(start.tile, start.slot))}
      ensures Exploring(k, start, {StateAt(Ctx(k), Start(k))}, transports, owners)
      ensures Here(start) == Start(k) && 1 <= |start.visited| <= StateCount(target, ii)
    {
      hide Consistent, Advance, StateId, StateCount, Ready;
      RoutingParts(k);
      var ctx, visited := Ctx(k), {StateAt(Ctx(k), Start(k))};
      assert ctx.SlotAt(start.elapsed) == start.slot;
      assert Follow(ctx, [], Start(k)) == Some(Start(k)) && LinksOf(ctx, []) == [];
      assert start.visited == set s | s in visited :: StateId(target, s);
      VisitedBound(target, ii, visited);
    }

    // If the exploration from the producer found nothing, there is nothing.
    lemma NoWayAtAll(k: nat, start: RouteProgress, occupied: set<Resource>)
      requires Routing(k) && Here(start) == Start(k) && start.actions == []
      requires NoWayOn(k, start, {StateAt(Ctx(k), Start(k))}, occupied)
      requires Start(k).tile == Goal(k) && ReadyOffset(k) < U32_MAX ==> Hopeless(k + 1, occupied)
      ensures Hopeless(k, occupied)
    {
      hide NoWayOn;
      if dfg.targetName == target.name && CanRealise(dfg, target, ii, placements, k, occupied) {
        var edge := dfg.edges[k];
        var plan :| RoutesEdge(dfg, target, ii, edge, placements, plan) &&
                    Members(PlanLinks(target, ii, edge, placements, plan)) !! occupied &&
                    CanRealise(dfg, target, ii, placements, k + 1,
                               occupied + Members(PlanLinks(target, ii, edge, placements, plan)));
        PlanContradicts(k, start, occupied, plan);
      }
    }

    lemma PlanContradicts(k: nat, start: RouteProgress, occupied: set<Resource>, plan: TransportPlan)
      requires Routing(k) && Here(start) == Start(k) && start.actions == []
      requires NoWayOn(k, start, {StateAt(Ctx(k), Start(k))}, occupied)
      requires Start(k).tile == Goal(k) && ReadyOffset(k) < U32_MAX ==> Hopeless(k + 1, occupied)
      requires RoutesEdge(dfg, target, ii, dfg.edges[k], placements, plan)
      requires Members(PlanLinks(target, ii, dfg.edges[k], placements, plan)) !! occupied
      ensures Hopeless(k + 1, occupied + Members(PlanLinks(target, ii, dfg.edges[k], placements, plan)))
    {
      var links := Members(PlanLinks(target, ii, dfg.edges[k], placements, plan));
      FollowTakesTime(Ctx(k), plan.actions, Start(k));
      if Start(k).tile == Goal(k) {
        HopelessMonotone(k + 1, occupied, occupied + links);
      } else {
        ghost var direct := DirectRoute(k, plan, occupied);
        assert DeadEnd(k, start, {StateAt(Ctx(k), Start(k))}, occupied, direct);
        var fewer := occupied + Members(LinksOf(Ctx(k), [])) + Members(WalkLinks(Ctx(k), direct, Start(k)));
        HopelessMonotone(k + 1, fewer, occupied + links);
      }
    }

    // A detour-free version of a transport between different tiles.
    lemma DirectRoute(k: nat, plan: TransportPlan, occupied: set<Resource>) returns (direct: seq<Move>)
      requires Routing(k) && Start(k).tile != Goal(k)
      requires RoutesEdge(dfg, target, ii, dfg.edges[k], placements, plan)
      requires Members(PlanLinks(target, ii, dfg.edges[k], placements, plan)) !! occupied
      ensures direct != []
      ensures Completes(Ctx(k), direct, Start(k), {StateAt(Ctx(k), Start(k))}, occupied, Goal(k))
      ensures Members(WalkLinks(Ctx(k), direct, Start(k))) <=
              Members(PlanLinks(target, ii, dfg.edges[k], placements, plan))
    {
      hide Advance, Walk, WalkLinks, Follow, LinksOf, Simple, Avoids, Ready;
      RoutingParts(k);
      var ctx := Ctx(k);
      UnrollWalks(ctx, plan.actions, Start(k));
      AvoidsNothing(ctx, Unroll(plan.actions), Start(k));
      direct := RemoveDetours(ctx, Unroll(plan.actions), Start(k), {});
      if direct == [] {
        NoMoves(ctx, Start(k));
      }
    }

    lemma HopelessMonotone(k: nat, fewer: set<Resource>, more: set<Resource>)
      requires Hopeless(k, fewer) && fewer <= more
      ensures Hopeless(k, more)
    {
      if Ready() && k <= |dfg.edges| && CanRealise(dfg, target, ii, placements, k, more) {
        RealiseMonotone(dfg, target, ii, placements, k, fewer, more);
      }
    }
  }

  lemma MembersConcat<T>(a: seq<T>, b: seq<T>)
    ensures Members(a + b) == Members(a) + Members(b)
  {
  }
}