// The exhaustive search over placements, and the oracle's answer.

module OracleSolve {
  import opened Wrappers
  import opened Mesh
  import opened Target
  import opened Resources
  import opened Reservation
  import opened Ordering
  import opened Mapping
  import opened Ledger
  import opened Realisability
  import opened Oracle

  /** Places the nodes one after another; the table always holds exactly the footprints of those placed. */
  class PlacementSearch {
    const dfg: TargetDFG
    const target: TargetModel
    const ii: nat
    const model: ResourceModel
    const table: ReservationTable
    var placements: map<nat, NodePlacement>
    var answer: Option<ModuloMapping>

    constructor (dfg: TargetDFG, target: TargetModel, model: ResourceModel, table: ReservationTable)
      ensures this.dfg == dfg && this.target == target && this.ii == model.ii && this.model == model
      ensures this.table == table && placements == map[] && answer == None
    {
      this.dfg, this.target, this.ii, this.model, this.table := dfg, target, model.ii, model, table;
      this.placements, this.answer := map[], None;
    }

    ghost predicate Ready() {
      && 0 < ii && target.Valid() && dfg.Valid(target) && EndpointsIn(dfg, dfg.NodeIds())
      && model.Valid() && model.target == target && model.ii == ii
    }

    // The first k nodes are placed, and the table says exactly that.
    ghost predicate Entered(k: nat, placements: map<nat, NodePlacement>, owners: seq<Option<Owner>>) {
      && Ready() && k <= |dfg.nodes|
      && placements.Keys == FirstKeys(NodeId, dfg.nodes, k)
      && (forall i :: 0 <= i < k ==>
            dfg.nodes[i].id in placements && NodeLegal(target, ii, dfg.nodes[i], placements[dfg.nodes[i].id]))
      && Holds(model, owners, Claims(dfg, target, ii, placements, map[]))
    }

    ghost function Taken(owners: seq<Option<Owner>>): set<Resource> {
      if model.Valid() && |owners| == |model.resources| then Occupied(model, owners) else {}
    }

    // The nodes from k on cannot be placed and routed.
    ghost predicate Hopeless(k: nat, placements: map<nat, NodePlacement>, occupied: set<Resource>) {
      Ready() && k <= |dfg.nodes| && placements.Keys == FirstKeys(NodeId, dfg.nodes, k) && dfg.targetName == target.name ==>
        !CanPlace(dfg, target, ii, placements, k, occupied)
    }

    ghost predicate Found()
      reads this
    {
      answer.Some? && Accepted(dfg, target, ii, answer.value)
    }

    ghost function Units(k: nat, placement: NodePlacement): seq<Resource> {
      if 0 < ii && k < |dfg.nodes| && dfg.nodes[k].operation in target.operations
      then Footprint(target.operations[dfg.nodes[k].operation], placement.tile, placement.issueSlot, ii)
      else []
    }

    // Placing node k like this, if it is legal and fits, leads nowhere.
    ghost predicate Refused(k: nat, placements: map<nat, NodePlacement>, occupied: set<Resource>, placement: NodePlacement) {
      Ready() && k < |dfg.nodes| && NodeLegal(target, ii, dfg.nodes[k], placement) &&
      Members(Units(k, placement)) !! occupied ==>
        Hopeless(k + 1, placements[dfg.nodes[k].id := placement], occupied + Members(Units(k, placement)))
    }

    method SearchPlacements(index: nat) returns (found: bool)
      requires Entered(index, placements, table.owners)
      modifies this`placements, this`answer, table
      ensures found ==> Found()
      ensures !found ==> placements == old(placements) && table.owners == old(table.owners) && answer == old(answer)
      ensures !found ==> Hopeless(index, placements, Taken(table.owners))
      decreases |dfg.nodes| - index, 1
    {
      hide *;
      EnteredBound(index, placements, table.owners);
      if index == |dfg.nodes| {
        found := RouteAll();
        return;
      }
      var node := dfg.nodes[index];
      var tiles := target.CompatibleTiles(node.operation);
      for t := 0 to |tiles|
        invariant placements == old(placements) && table.owners == old(table.owners) && answer == old(answer)
        invariant forall j, slot: nat :: 0 <= j < t && slot < ii ==>
          Refused(index, placements, Taken(table.owners), NodePlacement(node.id, tiles[j], slot))
      {
        for slot := 0 to ii
          invariant placements == old(placements) && table.owners == old(table.owners) && answer == old(answer)
          invariant forall s: nat :: s < slot ==>
            Refused(index, placements, Taken(table.owners), NodePlacement(node.id, tiles[t], s))
        {
          found := TryPlacement(index, tiles[t], slot);
          if found {
            return;
          }
        }
      }
      found := false;
      AllRefused(index, placements, Taken(table.owners), tiles);
    }

    lemma EnteredBound(k: nat, placements: map<nat, NodePlacement>, owners: seq<Option<Owner>>)
      requires Entered(k, placements, owners)
      ensures k <= |dfg.nodes|
    {
    }

    // Trying every compatible tile in every slot is trying everything.
    lemma AllRefused(k: nat, placements: map<nat, NodePlacement>, occupied: set<Resource>, tiles: seq<TileCoord>)
      requires k < |dfg.nodes|
      requires forall t :: t in tiles <==> target.TileSupports(t, dfg.nodes[k].operation)
      requires forall j, slot: nat :: 0 <= j < |tiles| && slot < ii ==>
        Refused(k, placements, occupied, NodePlacement(dfg.nodes[k].id, tiles[j], slot))
      ensures Hopeless(k, placements, occupied)
    {
      hide TargetModel.TileSupports, Refused;
      if Ready() && placements.Keys == FirstKeys(NodeId, dfg.nodes, k) && dfg.targetName == target.name &&
         CanPlace(dfg, target, ii, placements, k, occupied) {
        FirstKeysGrow(NodeId, dfg.nodes, k);
        var placement :| NodeLegal(target, ii, dfg.nodes[k], placement) &&
          Members(Units(k, placement)) !! occupied &&
          CanPlace(dfg, target, ii, placements[dfg.nodes[k].id := placement], k + 1,
                   occupied + Members(Units(k, placement)));
        assert placement.tile in tiles;
        var j :| 0 <= j < |tiles| && tiles[j] == placement.tile;
        assert Refused(k, placements, occupied, NodePlacement(dfg.nodes[k].id, tiles[j], placement.issueSlot));
        assert placement == NodePlacement(dfg.nodes[k].id, tiles[j], placement.issueSlot);
        RefusedMeans(k, placements, occupied, placement);
      }
    }

    lemma RefusedMeans(k: nat, placements: map<nat, NodePlacement>, occupied: set<Resource>, placement: NodePlacement)
      requires Refused(k, placements, occupied, placement)
      requires Ready() && k < |dfg.nodes| && NodeLegal(target, ii, dfg.nodes[k], placement)
      requires Members(Units(k, placement)) !! occupied && dfg.targetName == target.name
      requires placements.Keys == FirstKeys(NodeId, dfg.nodes, k)
      ensures placements[dfg.nodes[k].id := placement].Keys == FirstKeys(NodeId, dfg.nodes, k + 1)
      ensures !CanPlace(dfg, target, ii, placements[dfg.nodes[k].id := placement], k + 1,
                        occupied + Members(Units(k, placement)))
    {
      FirstKeysGrow(NodeId, dfg.nodes, k);
    }

    // One candidate tile and slot for the next node.
    method TryPlacement(index: nat, tile: TileCoord, slot: nat) returns (found: bool)
      requires Entered(index, placements, table.owners) && index < |dfg.nodes| && slot < ii
      requires target.TileSupports(tile, dfg.nodes[index].operation)
      modifies this`placements, this`answer, table
      ensures found ==> Found()
      ensures !found ==> placements == old(placements) && table.owners == old(table.owners) && answer == old(answer)
      ensures !found ==>
        Refused(index, placements, Taken(table.owners), NodePlacement(dfg.nodes[index].id, tile, slot))
      decreases |dfg.nodes| - index, 0
    {
      hide *;
      var node := dfg.nodes[index];
      var placement := NodePlacement(node.id, tile, slot);
      EnteredParts(index, placements, table.owners);
      var footprint := model.OperationFootprint(node.operation, tile, slot);
      if footprint.None? {
        SelfOverlapRefused(index, placements, Taken(table.owners), placement);
        return false;
      }
      UnitsAre(index, placement);
      PlacementEnters(index, placements, table.owners, placement, footprint.value);
      ghost var owners, before := table.owners, placements;
      var delta := table.TryReserve(footprint.value, Owner(NodeOwner, node.id));
      if delta.None? {
        return false;
      }
      placements := placements[node.id := placement];
      found := SearchPlacements(index + 1);
      if !found {
        EraseAdded(before, node.id, placement);
        UndoRestores(owners, footprint.value, Owner(NodeOwner, node.id));
        placements := placements - {node.id};
        var undone := table.Undo(delta.value);
        NowRefused(index, placements, Taken(owners), placement);
      }
    }

    lemma EnteredParts(k: nat, placements: map<nat, NodePlacement>, owners: seq<Option<Owner>>)
      requires Entered(k, placements, owners)
      ensures Ready() && model.Valid() && target.Valid() && model.target == target && model.ii == ii && 0 < ii
      ensures |owners| == |model.resources|
    {
    }

    lemma NowRefused(k: nat, placements: map<nat, NodePlacement>, occupied: set<Resource>, placement: NodePlacement)
      requires k < |dfg.nodes|
      requires Hopeless(k + 1, placements[dfg.nodes[k].id := placement], occupied + Members(Units(k, placement)))
      ensures Refused(k, placements, occupied, placement)
    {
    }

    // An operation longer than the II is legal nowhere.
    lemma SelfOverlapRefused(k: nat, placements: map<nat, NodePlacement>, occupied: set<Resource>, placement: NodePlacement)
      requires k < |dfg.nodes|
      requires !(target.TileSupports(placement.tile, dfg.nodes[k].operation) &&
                 target.operations[dfg.nodes[k].operation].issueOccupancy <= ii)
      ensures Refused(k, placements, occupied, placement)
    {
    }

    // What entering a placement does to the search state.
    lemma PlacementEnters(k: nat, placements: map<nat, NodePlacement>, owners: seq<Option<Owner>>,
                          placement: NodePlacement, footprint: seq<nat>)
      requires Entered(k, placements, owners) && k < |dfg.nodes|
      requires placement.node == dfg.nodes[k].id && placement.issueSlot < ii
      requires target.TileSupports(placement.tile, dfg.nodes[k].operation)
      requires target.operations[dfg.nodes[k].operation].issueOccupancy <= ii
      requires model.Knows(Units(k, placement)) && footprint == model.IdsOf(Units(k, placement))
      ensures placement.node !in placements
      ensures Reservable(owners, footprint) ==>
        var owners' := Assign(owners, footprint, Some(Owner(NodeOwner, placement.node)));
        && Entered(k + 1, placements[placement.node := placement], owners')
        && Taken(owners') == Taken(owners) + Members(Units(k, placement))
      ensures !Reservable(owners, footprint) ==> Refused(k, placements, Taken(owners), placement)
    {
      hide Holds, Claims, TargetDFG.Valid, TargetModel.Valid, Reservable, Occupied, Hopeless;
      EnteredParts(k, placements, owners);
      var units, owner := Units(k, placement), Owner(NodeOwner, placement.node);
      FootprintDistinct(target.operations[dfg.nodes[k].operation], placement.tile, placement.issueSlot, ii);
      ReservableIsUnoccupied(model, owners, units);
      OccupiedAfter(model, owners, units, owner);
      NodeKeyNew(k, placements, owners);
      if Reservable(owners, footprint) {
        PlacementRecorded(k, placements, owners, placement, footprint);
      }
    }

    lemma NodeKeyNew(k: nat, placements: map<nat, NodePlacement>, owners: seq<Option<Owner>>)
      requires Entered(k, placements, owners) && k < |dfg.nodes|
      ensures dfg.nodes[k].id !in placements
    {
      hide Holds, Claims, TargetModel.Valid;
    }

    lemma PlacementRecorded(k: nat, placements: map<nat, NodePlacement>, owners: seq<Option<Owner>>,
                            placement: NodePlacement, footprint: seq<nat>)
      requires Entered(k, placements, owners) && k < |dfg.nodes|
      requires NodeLegal(target, ii, dfg.nodes[k], placement) && placement.node !in placements
      requires model.Knows(Units(k, placement)) && footprint == model.IdsOf(Units(k, placement))
      requires Reservable(owners, footprint)
      ensures Entered(k + 1, placements[placement.node := placement],
                      Assign(owners, footprint, Some(Owner(NodeOwner, placement.node))))
    {
      hide Holds, TargetModel.Valid, TargetModel.TileSupports, Reservable, ClaimOf;
      var node := dfg.nodes[k];
      var placements' := placements[placement.node := placement];
      FirstKeysGrow(NodeId, dfg.nodes, k);
      assert placements'.Keys == placements.Keys + {node.id};
      PlacingAdds(dfg, target, ii, placements, map[], node, placement);
      Enter(model, owners, Claims(dfg, target, ii, placements, map[]), Claims(dfg, target, ii, placements', map[]),
            Owner(NodeOwner, node.id), Units(k, placement));
      forall i | 0 <= i < k + 1
        ensures dfg.nodes[i].id in placements' && NodeLegal(target, ii, dfg.nodes[i], placements'[dfg.nodes[i].id])
      {
        if i < k {
          assert dfg.nodes[i].id in placements;
        }
      }
    }

    lemma UnitsAre(k: nat, placement: NodePlacement)
      requires Ready() && k < |dfg.nodes| && target.TileSupports(placement.tile, dfg.nodes[k].operation)
      ensures dfg.nodes[k].operation in target.operations
      ensures Units(k, placement) ==
              Footprint(target.operations[dfg.nodes[k].operation], placement.tile, placement.issueSlot, ii)
    {
    }

    // All nodes are placed: route the edges.
    method RouteAll() returns (found: bool)
      requires Entered(|dfg.nodes|, placements, table.owners)
      modifies this`answer, table
      ensures found ==> Found()
      ensures !found ==> table.owners == old(table.owners) && answer == old(answer)
      ensures !found ==> Hopeless(|dfg.nodes|, placements, Taken(table.owners))
    {
      hide *;
      var edges := new EdgeSearch(dfg, target, model, table, placements);
      EdgesReady(edges, placements, table.owners);
      found := edges.RealiseEdges(0);
      if found {
        answer := edges.answer;
        FoundMeans(edges);
      } else {
        EdgesHopeless(edges, placements, table.owners);
      }
    }

    ghost predicate Carries(edges: EdgeSearch, placements: map<nat, NodePlacement>) {
      && edges.dfg == dfg && edges.target == target && edges.ii == ii && edges.model == model && edges.table == table
      && edges.placements == placements
    }

    lemma EdgesReady(edges: EdgeSearch, placements: map<nat, NodePlacement>, owners: seq<Option<Owner>>)
      requires edges.dfg == dfg && edges.target == target && edges.ii == model.ii && edges.model == model
      requires edges.table == table && edges.placements == placements
      requires Entered(|dfg.nodes|, placements, owners)
      ensures Carries(edges, placements)
      ensures edges.Consistent(0, map[], owners)
    {
      hide TargetModel.Valid, Holds, Claims;
      assert placements.Keys == dfg.NodeIds();
      assert DependencesOf(dfg, map[]) == map[];
    }

    lemma EdgesHopeless(edges: EdgeSearch, placements: map<nat, NodePlacement>, owners: seq<Option<Owner>>)
      requires Carries(edges, placements) && Entered(|dfg.nodes|, placements, owners)
      requires edges.Hopeless(0, edges.Taken(owners))
      ensures Hopeless(|dfg.nodes|, placements, Taken(owners))
    {
      EdgesReadyHere(edges, placements, owners);
    }

    lemma EdgesReadyHere(edges: EdgeSearch, placements: map<nat, NodePlacement>, owners: seq<Option<Owner>>)
      requires Carries(edges, placements) && Entered(|dfg.nodes|, placements, owners)
      ensures edges.Ready() && edges.Taken(owners) == Taken(owners)
    {
      hide TargetModel.Valid, Holds, Claims, Occupied;
      assert placements.Keys == dfg.NodeIds();
    }

    lemma FoundMeans(edges: EdgeSearch)
      requires Carries(edges, edges.placements) && edges.Found() && answer == edges.answer
      ensures Found()
    {
    }
  }

  /** Decides whether any legal mapping exists at this II. */
  method Solve(dfg: TargetDFG, target: TargetModel, ii: nat, options: OracleOptions) returns (result: OracleResult)
    requires target.Valid()
    ensures result.status == UnsupportedOracleSize <==>
      (ii == 0 || ii > options.maxII || |dfg.nodes| > options.maxNodes || |dfg.edges| > options.maxEdges ||
       target.rows * target.cols > options.maxTiles)
    ensures result.status != UnsupportedOracleSize ==> (result.status == InvalidInput <==> !dfg.Valid(target))
    ensures result.status == Feasible ==>
      result.mapping.Some? && Accepted(dfg, target, ii, result.mapping.value)
    ensures result.status == Infeasible ==> forall mapping :: !Accepted(dfg, target, ii, mapping)
  {
    if ii == 0 || ii > options.maxII || |dfg.nodes| > options.maxNodes || |dfg.edges| > options.maxEdges ||
       target.rows * target.cols > options.maxTiles {
      return OracleResult(UnsupportedOracleSize, None);
    }
    if !dfg.Valid(target) {
      return OracleResult(InvalidInput, None);
    }
    var model := BuildResourceModel(target, ii);
    var table := new ReservationTable(model);
    var search := new PlacementSearch(dfg, target, model, table);
    NothingEntered(search, table.owners);
    var found := search.SearchPlacements(0);
    if found {
      result := OracleResult(Feasible, search.answer);
    } else {
      NothingAccepted(search, table.owners);
      result := OracleResult(Infeasible, None);
    }
  }

  lemma NothingEntered(search: PlacementSearch, owners: seq<Option<Owner>>)
    requires 0 < search.ii && search.target.Valid() && search.dfg.Valid(search.target)
    requires search.model.Valid() && search.model.target == search.target && search.model.ii == search.ii
    requires owners == seq(|search.model.resources|, _ => None)
    ensures search.Entered(0, map[], owners)
    ensures search.Taken(owners) == {}
  {
    NothingClaimed(search.model, search.dfg, search.target);
  }

  // Were a mapping accepted, the search would have found one.
  lemma NothingAccepted(search: PlacementSearch, owners: seq<Option<Owner>>)
    requires search.Entered(0, map[], owners) && search.Taken(owners) == {}
    requires search.Hopeless(0, map[], {})
    ensures forall mapping :: !Accepted(search.dfg, search.target, search.ii, mapping)
  {
    forall mapping | Accepted(search.dfg, search.target, search.ii, mapping)
      ensures false
    {
      var placements: map<nat, NodePlacement>, dependences: map<nat, MappedDependence> :|
        LegalAs(search.dfg, search.target, mapping, placements, dependences);
      LegalMapsRefuted(search, owners, placements, dependences);
    }
  }

  lemma LegalMapsRefuted(search: PlacementSearch, owners: seq<Option<Owner>>, placements: map<nat, NodePlacement>,
                         dependences: map<nat, MappedDependence>)
    requires search.Entered(0, map[], owners) && search.Hopeless(0, map[], {})
    requires search.dfg.targetName == search.target.name
    ensures !LegalMaps(search.dfg, search.target, search.ii, placements, dependences)
  {
    hide LegalMaps, Holds, Claims, TargetModel.Valid;
    if LegalMaps(search.dfg, search.target, search.ii, placements, dependences) {
      OnlyNone(search.dfg, placements);
      LegalPlaces(search.dfg, search.target, search.ii, placements, dependences, 0, {});
    }
  }

  lemma OnlyNone(dfg: TargetDFG, placements: map<nat, NodePlacement>)
    ensures Only(placements, FirstKeys(NodeId, dfg.nodes, 0)) == map[]
  {
  }
}
