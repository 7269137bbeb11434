// Resource bound on the initiation interval: a pigeonhole argument over disjoint footprints.

module ResourceBound {
  import opened Wrappers
  import opened Mesh
  import opened Target
  import opened Resources
  import opened Reservation
  import opened Mapping
  import opened Ledger
  import opened Realisability

  // Issue cycles the selected nodes occupy in one iteration.
  function Demand(selected: TargetNode -> bool, nodes: seq<TargetNode>): nat {
    if nodes == [] then 0
    else
      var last := nodes[|nodes| - 1];
      Demand(selected, nodes[..|nodes| - 1]) + (if selected(last) then last.issueOccupancy else 0)
  }

  function OnUnit(executionClass: ExecutionClass): TargetNode -> bool {
    (node: TargetNode) => node.executionClass == executionClass
  }

  function Running(operation: string): TargetNode -> bool {
    (node: TargetNode) => node.operation == operation
  }

  ghost function SupportingTiles(target: TargetModel, operation: string): set<TileCoord> {
    set row, col | 0 <= row < target.rows && 0 <= col < target.cols &&
                   target.TileSupports(TileCoord(row, col), operation) :: TileCoord(row, col)
  }

  ghost function AllTiles(rows: nat, cols: nat): set<TileCoord> {
    set row, col | 0 <= row < rows && 0 <= col < cols :: TileCoord(row, col)
  }

  ghost function RowTiles(row: nat, cols: nat): set<TileCoord> {
    set col | 0 <= col < cols :: TileCoord(row, col)
  }

  ghost function LsuTiles(target: TargetModel): set<TileCoord> {
    set t | t in target.lsuTiles
  }

  /** No unit class and no operation is asked for more than it can issue in `ii` cycles. */
  ghost predicate ResourceFits(dfg: TargetDFG, target: TargetModel, ii: nat) {
    && (forall node :: node in dfg.nodes ==> node.issueOccupancy <= ii)
    && Demand(OnUnit(FUClass), dfg.nodes) <= target.rows * target.cols * ii
    && Demand(OnUnit(LSUClass), dfg.nodes) <= |target.lsuTiles| * ii
    && (forall operation :: operation in target.operations ==>
          Demand(Running(operation), dfg.nodes) <= |SupportingTiles(target, operation)| * ii)
  }

  // ----- Counting -----

  ghost function UnitSlots(executionClass: ExecutionClass, tiles: set<TileCoord>, ii: nat): set<Resource> {
    set t, slot | t in tiles && 0 <= slot < ii :: ExecutionUnit(executionClass, t, slot)
  }

  ghost function UnitsInSlot(executionClass: ExecutionClass, tiles: set<TileCoord>, slot: nat): set<Resource> {
    set t | t in tiles :: ExecutionUnit(executionClass, t, slot)
  }

  lemma UnitsInSlotCount(executionClass: ExecutionClass, tiles: set<TileCoord>, slot: nat)
    ensures |UnitsInSlot(executionClass, tiles, slot)| == |tiles|
  {
    if tiles != {} {
      var t :| t in tiles;
      assert UnitsInSlot(executionClass, tiles, slot) ==
             UnitsInSlot(executionClass, tiles - {t}, slot) + {ExecutionUnit(executionClass, t, slot)};
      UnitsInSlotCount(executionClass, tiles - {t}, slot);
    }
  }

  lemma UnitSlotsSplit(executionClass: ExecutionClass, tiles: set<TileCoord>, ii: nat)
    requires 0 < ii
    ensures UnitSlots(executionClass, tiles, ii) ==
            UnitSlots(executionClass, tiles, ii - 1) + UnitsInSlot(executionClass, tiles, ii - 1)
    ensures UnitSlots(executionClass, tiles, ii - 1) !! UnitsInSlot(executionClass, tiles, ii - 1)
  {
    forall r | r in UnitSlots(executionClass, tiles, ii)
      ensures r in UnitSlots(executionClass, tiles, ii - 1) || r in UnitsInSlot(executionClass, tiles, ii - 1)
    {
      var t, slot :| t in tiles && 0 <= slot < ii && r == ExecutionUnit(executionClass, t, slot);
      if slot < ii - 1 {
        assert r in UnitSlots(executionClass, tiles, ii - 1);
      }
    }
    forall r | r in UnitSlots(executionClass, tiles, ii - 1)
      ensures r.slot < ii - 1
    {
    }
  }

  lemma {:induction false} UnitSlotsCount(executionClass: ExecutionClass, tiles: set<TileCoord>, ii: nat)
    ensures |UnitSlots(executionClass, tiles, ii)| == |tiles| * ii
  {
    if ii == 0 {
      assert UnitSlots(executionClass, tiles, 0) == {};
    } else {
      UnitSlotsSplit(executionClass, tiles, ii);
      hide UnitSlots, UnitsInSlot;
      UnitsInSlotCount(executionClass, tiles, ii - 1);
      UnitSlotsCount(executionClass, tiles, ii - 1);
      assert |tiles| * ii == |tiles| * (ii - 1) + |tiles|;
    }
  }

  lemma {:induction false} DistinctMembers<T>(s: seq<T>)
    requires Distinct(s)
    ensures |Members(s)| == |s|
  {
    if s == [] {
      assert Members(s) == {};
    } else {
      var init, last := s[..|s| - 1], s[|s| - 1];
      assert Members(s) == Members(init) + {last};
      DistinctMembers(init);
    }
  }

  lemma TilesCounted(target: TargetModel, operation: string, tiles: seq<TileCoord>)
    requires Distinct(tiles) && forall t :: t in tiles <==> target.TileSupports(t, operation)
    ensures |tiles| == |SupportingTiles(target, operation)|
  {
    DistinctMembers(tiles);
    assert Members(tiles) == SupportingTiles(target, operation);
  }

  // Nodes whose claims fit into a set of units cannot together demand more than its size.
  lemma {:induction false} ClaimsFill(dfg: TargetDFG, target: TargetModel, ii: nat, placements: map<nat, NodePlacement>,
                                      dependences: map<nat, MappedDependence>, selected: TargetNode -> bool,
                                      units: set<Resource>, k: nat) returns (taken: set<Resource>)
    requires dfg.UniqueIds() && k <= |dfg.nodes| && LegalMaps(dfg, target, ii, placements, dependences)
    requires forall node :: node in dfg.nodes ==> NodeMatchesTarget(node, target)
    requires forall node, r :: (node in dfg.nodes && selected(node) &&
      r in ClaimOf(dfg, target, ii, placements, dependences, Owner(NodeOwner, node.id))) ==> r in units
    ensures taken <= units && |taken| == Demand(selected, dfg.nodes[..k])
    ensures forall r :: r in taken ==>
      exists j :: 0 <= j < k && r in ClaimOf(dfg, target, ii, placements, dependences, Owner(NodeOwner, dfg.nodes[j].id))
  {
    hide ClaimOf, LegalMaps, TargetDFG.UniqueIds, NodeMatchesTarget;
    taken := {};
    if k > 0 {
      taken := ClaimsFill(dfg, target, ii, placements, dependences, selected, units, k - 1);
      var node := dfg.nodes[k - 1];
      assert dfg.nodes[..k][..k - 1] == dfg.nodes[..k - 1];
      if selected(node) {
        var claim := Members(ClaimOf(dfg, target, ii, placements, dependences, Owner(NodeOwner, node.id)));
        NodeClaimSize(dfg, target, ii, placements, dependences, node);
        FreshClaim(dfg, target, ii, placements, dependences, k - 1, taken);
        taken := taken + claim;
      }
    }
  }

  lemma NodeClaimSize(dfg: TargetDFG, target: TargetModel, ii: nat, placements: map<nat, NodePlacement>,
                      dependences: map<nat, MappedDependence>, node: TargetNode)
    requires dfg.UniqueIds() && node in dfg.nodes && LegalMaps(dfg, target, ii, placements, dependences)
    requires NodeMatchesTarget(node, target)
    ensures |Members(ClaimOf(dfg, target, ii, placements, dependences, Owner(NodeOwner, node.id)))| == node.issueOccupancy
    ensures node.issueOccupancy <= ii && node.id in placements && target.TileSupports(placements[node.id].tile, node.operation)
    ensures forall r :: r in ClaimOf(dfg, target, ii, placements, dependences, Owner(NodeOwner, node.id)) ==>
      r.slot < ii && r == ExecutionUnit(node.executionClass, placements[node.id].tile, r.slot)
  {
    hide ClaimsDisjoint, DependenceLegal;
    dfg.NodeUnique(node);
    var i :| 0 <= i < |dfg.nodes| && dfg.nodes[i] == node;
    assert node.id in dfg.NodeIds();
    var placement := placements[node.id];
    assert NodeLegal(target, ii, node, placement);
    var operation := target.operations[node.operation];
    FootprintDistinct(operation, placement.tile, placement.issueSlot, ii);
    DistinctMembers(Footprint(operation, placement.tile, placement.issueSlot, ii));
  }

  lemma FreshClaim(dfg: TargetDFG, target: TargetModel, ii: nat, placements: map<nat, NodePlacement>,
                   dependences: map<nat, MappedDependence>, k: nat, taken: set<Resource>)
    requires dfg.UniqueIds() && k < |dfg.nodes| && LegalMaps(dfg, target, ii, placements, dependences)
    requires forall r :: r in taken ==>
      exists j :: 0 <= j < k && r in ClaimOf(dfg, target, ii, placements, dependences, Owner(NodeOwner, dfg.nodes[j].id))
    ensures taken !! Members(ClaimOf(dfg, target, ii, placements, dependences, Owner(NodeOwner, dfg.nodes[k].id)))
  {
    hide ClaimOf, NodeLegal, DependenceLegal;
    forall r | r in taken
      ensures r !in ClaimOf(dfg, target, ii, placements, dependences, Owner(NodeOwner, dfg.nodes[k].id))
    {
      var j :| 0 <= j < k && r in ClaimOf(dfg, target, ii, placements, dependences, Owner(NodeOwner, dfg.nodes[j].id));
      assert Owner(NodeOwner, dfg.nodes[j].id) != Owner(NodeOwner, dfg.nodes[k].id);
    }
  }

  // Selected nodes of one class on the given tiles demand no more than those tiles offer.
  lemma ClassCapacity(dfg: TargetDFG, target: TargetModel, ii: nat, placements: map<nat, NodePlacement>,
                      dependences: map<nat, MappedDependence>, selected: TargetNode -> bool,
                      executionClass: ExecutionClass, tiles: set<TileCoord>)
    requires dfg.UniqueIds() && LegalMaps(dfg, target, ii, placements, dependences)
    requires forall node :: node in dfg.nodes ==> NodeMatchesTarget(node, target)
    requires forall node :: node in dfg.nodes && selected(node) ==> node.executionClass == executionClass
    requires forall node, t :: (node in dfg.nodes && selected(node) && target.TileSupports(t, node.operation)) ==> t in tiles
    ensures Demand(selected, dfg.nodes) <= |tiles| * ii
  {
    hide ClaimOf, LegalMaps, TargetDFG.UniqueIds, NodeMatchesTarget, TargetModel.TileSupports;
    var units := UnitSlots(executionClass, tiles, ii);
    forall node, r | node in dfg.nodes && selected(node) &&
      r in ClaimOf(dfg, target, ii, placements, dependences, Owner(NodeOwner, node.id))
      ensures r in units
    {
      NodeClaimSize(dfg, target, ii, placements, dependences, node);
    }
    var taken := ClaimsFill(dfg, target, ii, placements, dependences, selected, units, |dfg.nodes|);
    assert dfg.nodes[..|dfg.nodes|] == dfg.nodes;
    UnitSlotsCount(executionClass, tiles, ii);
    SubsetSize(taken, units);
  }

  lemma SubsetSize<T>(a: set<T>, b: set<T>)
    requires a <= b
    ensures |a| <= |b|
  {
    assert b == a + (b - a);
  }

  lemma {:induction false} TileCount(rows: nat, cols: nat)
    ensures |AllTiles(rows, cols)| == rows * cols
  {
    if rows == 0 {
      assert AllTiles(rows, cols) == {};
    } else {
      var before, last := AllTiles(rows - 1, cols), RowTiles(rows - 1, cols);
      assert AllTiles(rows, cols) == before + last && before !! last;
      TileCount(rows - 1, cols);
      RowCount(rows - 1, cols);
      assert rows * cols == (rows - 1) * cols + cols;
    }
  }

  lemma {:induction false} RowCount(row: nat, cols: nat)
    ensures |RowTiles(row, cols)| == cols
  {
    if cols == 0 {
      assert RowTiles(row, cols) == {};
    } else {
      assert RowTiles(row, cols) == RowTiles(row, cols - 1) + {TileCoord(row, cols - 1)};
      RowCount(row, cols - 1);
    }
  }

  lemma LsuTileCount(target: TargetModel)
    requires target.Valid()
    ensures |LsuTiles(target)| == |target.lsuTiles|
  {
    assert LsuTiles(target) == Members(target.lsuTiles);
    DistinctMembers(target.lsuTiles);
  }

  /** Whatever is legal at an II fits the resources at that II. */
  lemma LegalFits(dfg: TargetDFG, target: TargetModel, mapping: ModuloMapping)
    requires target.Valid() && dfg.Valid(target) && Legal(dfg, target, mapping)
    ensures 0 < mapping.ii && ResourceFits(dfg, target, mapping.ii)
  {
    var placements: map<nat, NodePlacement>, dependences: map<nat, MappedDependence> :|
      LegalAs(dfg, target, mapping, placements, dependences);
    LegalMapsFit(dfg, target, mapping.ii, placements, dependences);
  }

  lemma LegalMapsFit(dfg: TargetDFG, target: TargetModel, ii: nat, placements: map<nat, NodePlacement>,
                     dependences: map<nat, MappedDependence>)
    requires target.Valid() && dfg.Valid(target) && LegalMaps(dfg, target, ii, placements, dependences)
    ensures 0 < ii && ResourceFits(dfg, target, ii)
  {
    OccupancyFits(dfg, target, ii, placements, dependences);
    FuFits(dfg, target, ii, placements, dependences);
    LsuFits(dfg, target, ii, placements, dependences);
    forall operation | operation in target.operations
      ensures Demand(Running(operation), dfg.nodes) <= |SupportingTiles(target, operation)| * ii
    {
      OperationFits(dfg, target, ii, placements, dependences, operation);
    }
  }

  lemma OccupancyFits(dfg: TargetDFG, target: TargetModel, ii: nat, placements: map<nat, NodePlacement>,
                      dependences: map<nat, MappedDependence>)
    requires dfg.Valid(target) && LegalMaps(dfg, target, ii, placements, dependences)
    ensures 0 < ii && forall node :: node in dfg.nodes ==> node.issueOccupancy <= ii
  {
    hide ClaimOf, ClaimsDisjoint, DependenceLegal;
    forall node | node in dfg.nodes
      ensures node.issueOccupancy <= ii
    {
      NodeClaimSize(dfg, target, ii, placements, dependences, node);
    }
  }

  lemma FuFits(dfg: TargetDFG, target: TargetModel, ii: nat, placements: map<nat, NodePlacement>,
               dependences: map<nat, MappedDependence>)
    requires dfg.Valid(target) && LegalMaps(dfg, target, ii, placements, dependences)
    ensures Demand(OnUnit(FUClass), dfg.nodes) <= target.rows * target.cols * ii
  {
    hide ClaimOf, LegalMaps;
    TileCount(target.rows, target.cols);
    ClassCapacity(dfg, target, ii, placements, dependences, OnUnit(FUClass), FUClass, AllTiles(target.rows, target.cols));
  }

  lemma LsuFits(dfg: TargetDFG, target: TargetModel, ii: nat, placements: map<nat, NodePlacement>,
                dependences: map<nat, MappedDependence>)
    requires target.Valid() && dfg.Valid(target) && LegalMaps(dfg, target, ii, placements, dependences)
    ensures Demand(OnUnit(LSUClass), dfg.nodes) <= |target.lsuTiles| * ii
  {
    hide ClaimOf, LegalMaps;
    LsuTileCount(target);
    ClassCapacity(dfg, target, ii, placements, dependences, OnUnit(LSUClass), LSUClass, LsuTiles(target));
  }

  lemma OperationFits(dfg: TargetDFG, target: TargetModel, ii: nat, placements: map<nat, NodePlacement>,
                      dependences: map<nat, MappedDependence>, operation: string)
    requires dfg.Valid(target) && LegalMaps(dfg, target, ii, placements, dependences) && operation in target.operations
    ensures Demand(Running(operation), dfg.nodes) <= |SupportingTiles(target, operation)| * ii
  {
    hide ClaimOf, LegalMaps;
    ClassCapacity(dfg, target, ii, placements, dependences, Running(operation),
                  target.operations[operation].executionClass, SupportingTiles(target, operation));
  }
}
