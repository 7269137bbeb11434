// The finite FU / LSU / link universe of one initiation interval and its ownership table.

module Resources {
  import opened Wrappers
  import opened Mesh
  import opened Target
  import ModuloArithmetic

  datatype Resource =
    | FU(tile: TileCoord, slot: nat)
    | LSU(tile: TileCoord, slot: nat)
    | Link(domain: NetworkDomain, tile: TileCoord, direction: Direction, slot: nat)

  // Which resources exist on a target at a given II.
  predicate Exists(target: TargetModel, ii: nat, r: Resource) {
    r.slot < ii && InArray(r.tile, target.rows, target.cols) &&
    match r
    case FU(_, _) => true
    case LSU(tile, _) => target.TileHasLSU(tile)
    case Link(_, tile, direction, _) =>
      target.meshLinks && Neighbor(tile, direction, target.rows, target.cols).Some?
  }

  function ExecutionUnit(executionClass: ExecutionClass, tile: TileCoord, slot: nat): Resource {
    if executionClass == FUClass then FU(tile, slot) else LSU(tile, slot)
  }

  // Everything an operation occupies when issued in `slot`, cycle by cycle.
  function Footprint(operation: Operation, tile: TileCoord, slot: nat, ii: nat): (units: seq<Resource>)
    requires 0 < ii
    ensures |units| == operation.issueOccupancy
    ensures forall k :: 0 <= k < |units| ==>
      units[k] == ExecutionUnit(operation.executionClass, tile, Advance(slot, k, ii))
  {
    seq(operation.issueOccupancy, k requires 0 <= k =>
      ExecutionUnit(operation.executionClass, tile, Advance(slot, k, ii)))
  }

  // Offsets below the II never fold onto the same slot.
  lemma AdvanceInjective(slot: nat, j: nat, k: nat, ii: nat)
    requires j < k < j + ii
    ensures Advance(slot, j, ii) != Advance(slot, k, ii)
  {
    AdvanceIsSum(slot, j, ii);
    AdvanceIsSum(slot, k, ii);
    ModuloArithmetic.DistinctResidues(slot + j, slot + k, ii);
  }

  // An occupancy above the II revisits its first slot.
  lemma AdvanceWraps(slot: nat, ii: nat)
    requires 0 < ii
    ensures Advance(slot, ii, ii) == Advance(slot, 0, ii)
  {
    AdvanceIsSum(slot, ii, ii);
    AdvanceIsSum(slot, 0, ii);
    ModuloArithmetic.AddMultiple(slot, 1, ii);
  }

  ghost predicate Distinct<T>(s: seq<T>) {
    forall i, j :: 0 <= i < j < |s| ==> s[i] != s[j]
  }

  // An operation overlaps itself in modulo time exactly when its occupancy exceeds the II.
  lemma FootprintDistinct(operation: Operation, tile: TileCoord, slot: nat, ii: nat)
    requires 0 < ii
    ensures Distinct(Footprint(operation, tile, slot, ii)) <==> operation.issueOccupancy <= ii
  {
    var units := Footprint(operation, tile, slot, ii);
    if operation.issueOccupancy <= ii {
      forall j, k | 0 <= j < k < |units|
        ensures units[j] != units[k]
      {
        AdvanceInjective(slot, j, k, ii);
      }
    } else {
      AdvanceWraps(slot, ii);
      assert units[0] == units[ii];
    }
  }

  lemma DistinctConcat<T>(a: seq<T>, b: seq<T>)
    requires Distinct(a) && Distinct(b)
    requires forall x :: x in a ==> x !in b
    ensures Distinct(a + b)
  {
    forall i, j | 0 <= i < j < |a + b|
      ensures (a + b)[i] != (a + b)[j]
    {
      if i < |a| <= j {
        assert a[i] in a && b[j - |a|] in b;
      }
    }
  }

  /** Dense numbering of the universe; nothing changes it after construction. */
  datatype ResourceModel = ResourceModel(
    target: TargetModel,
    ii: nat,
    resources: seq<Resource>,
    ids: map<Resource, nat>)
  {
    ghost predicate Valid() {
      && 0 < ii
      && (forall r :: r in ids <==> Exists(target, ii, r))
      && Numbered(resources, ids)
    }

    ghost predicate Knows(claims: seq<Resource>) {
      forall k :: 0 <= k < |claims| ==> claims[k] in ids
    }

    // The ids of a list of resources.
    ghost function IdsOf(claims: seq<Resource>): (r: seq<nat>)
      requires Knows(claims)
      ensures |r| == |claims|
      ensures forall k :: 0 <= k < |r| ==> r[k] == ids[claims[k]]
    {
      seq(|claims|, k requires 0 <= k < |claims| => ids[claims[k]])
    }

    // Ids name resources faithfully: same members, same repetitions.
    lemma IdsAreFaithful(claims: seq<Resource>)
      requires Valid() && Knows(claims)
      ensures forall id :: 0 <= id < |resources| ==> (id in IdsOf(claims) <==> resources[id] in claims)
      ensures forall k :: 0 <= k < |claims| ==> IdsOf(claims)[k] < |resources|
      ensures Distinct(IdsOf(claims)) <==> Distinct(claims)
    {
      forall id | 0 <= id < |resources|
        ensures id in IdsOf(claims) <==> resources[id] in claims
      {
        if id in IdsOf(claims) {
          var k :| 0 <= k < |claims| && IdsOf(claims)[k] == id;
          assert resources[id] == claims[k];
        }
        if resources[id] in claims {
          var k :| 0 <= k < |claims| && claims[k] == resources[id];
          assert IdsOf(claims)[k] == id;
        }
      }
      if !Distinct(IdsOf(claims)) {
        var i, j :| 0 <= i < j < |claims| && IdsOf(claims)[i] == IdsOf(claims)[j];
        assert resources[IdsOf(claims)[i]] == claims[i] == claims[j];
      }
    }

    function Find(r: Resource): Option<nat> {
      if r in ids then Some(ids[r]) else None
    }

    function FuResource(tile: TileCoord, slot: nat): Option<nat> {
      Find(FU(tile, slot))
    }

    function LsuResource(tile: TileCoord, slot: nat): Option<nat> {
      if !target.TileHasLSU(tile) then None else Find(LSU(tile, slot))
    }

    function LinkResource(domain: NetworkDomain, source: TileCoord, direction: Direction, slot: nat): Option<nat> {
      if Neighbor(source, direction, target.rows, target.cols).None? then None
      else Find(Link(domain, source, direction, slot))
    }

    lemma FootprintKnown(operationName: string, tile: TileCoord, issueSlot: nat)
      requires Valid() && target.TileSupports(tile, operationName)
      ensures Knows(Footprint(target.operations[operationName], tile, issueSlot, ii))
    {
      var operation := target.operations[operationName];
      var units := Footprint(operation, tile, issueSlot, ii);
      forall k | 0 <= k < |units|
        ensures units[k] in ids
      {
        assert Exists(target, ii, units[k]);
      }
    }

    // The unit an operation holds `offset` cycles after its issue.
    function UnitId(operation: Operation, tile: TileCoord, issueSlot: nat, offset: nat): (id: nat)
      requires Valid() && ExecutionUnit(operation.executionClass, tile, Advance(issueSlot, offset, ii)) in ids
      ensures id == ids[ExecutionUnit(operation.executionClass, tile, Advance(issueSlot, offset, ii))]
    {
      var slot := Advance(issueSlot, offset, ii);
      (if operation.executionClass == FUClass then FuResource(tile, slot) else LsuResource(tile, slot)).value
    }

    // The footprint as ids, or None where the source throws.
    method OperationFootprint(operationName: string, tile: TileCoord, issueSlot: nat)
      returns (footprint: Option<seq<nat>>)
      requires Valid() && target.Valid()
      ensures footprint.Some? <==>
        target.TileSupports(tile, operationName) && target.operations[operationName].issueOccupancy <= ii
      ensures footprint.Some? ==>
        var units := Footprint(target.operations[operationName], tile, issueSlot, ii);
        Knows(units) && footprint.value == IdsOf(units)
    {
      if operationName !in target.operations || !target.TileSupports(tile, operationName) {
        return None;
      }
      var operation := target.operations[operationName];
      if operation.issueOccupancy == 0 {
        return None;
      }
      ghost var units := Footprint(operation, tile, issueSlot, ii);
      FootprintKnown(operationName, tile, issueSlot);
      IdsAreFaithful(units);
      FootprintDistinct(operation, tile, issueSlot, ii);
      footprint := CollectUnits(operation, tile, issueSlot, units);
    }

    method CollectUnits(operation: Operation, tile: TileCoord, issueSlot: nat, ghost units: seq<Resource>)
      returns (footprint: Option<seq<nat>>)
      requires Valid() && units == Footprint(operation, tile, issueSlot, ii) && Knows(units)
      ensures footprint.Some? <==> Distinct(IdsOf(units))
      ensures footprint.Some? ==> footprint.value == IdsOf(units)
    {
      hide Advance, Valid, ExecutionUnit;
      var found: seq<nat> := [];
      for offset := 0 to operation.issueOccupancy
        invariant |found| == offset
        invariant forall k :: 0 <= k < offset ==> found[k] == IdsOf(units)[k]
        invariant Distinct(found)
      {
        assert units[offset] in ids;
        var resource := UnitId(operation, tile, issueSlot, offset);
        if resource in found {
          return None;
        }
        found := found + [resource];
      }
      assert found == IdsOf(units);
      return Some(found);
    }
  }

  // Each listed resource carries its own position as id, and nothing else has an id.
  ghost predicate Numbered(resources: seq<Resource>, ids: map<Resource, nat>) {
    && (forall r :: r in ids ==> ids[r] < |resources| && resources[ids[r]] == r)
    && (forall i :: 0 <= i < |resources| ==> resources[i] in ids && ids[resources[i]] == i)
  }

  // The resources of one tile in one slot, in numbering order.
  function CellResources(target: TargetModel, tile: TileCoord, slot: nat): seq<Resource> {
    [FU(tile, slot)] + (if target.TileHasLSU(tile) then [LSU(tile, slot)] else []) +
    (if target.meshLinks
     then CellLinks(target, Data, tile, slot) + CellLinks(target, Predicate, tile, slot)
     else [])
  }

  function CellLinks(target: TargetModel, domain: NetworkDomain, tile: TileCoord, slot: nat): seq<Resource> {
    LinkToward(target, domain, tile, North, slot) + LinkToward(target, domain, tile, South, slot) +
    LinkToward(target, domain, tile, East, slot) + LinkToward(target, domain, tile, West, slot)
  }

  function LinkToward(target: TargetModel, domain: NetworkDomain, tile: TileCoord, direction: Direction, slot: nat)
    : seq<Resource>
  {
    if Neighbor(tile, direction, target.rows, target.cols).Some? then [Link(domain, tile, direction, slot)] else []
  }

  lemma CellLinksExact(target: TargetModel, domain: NetworkDomain, tile: TileCoord, slot: nat)
    ensures Distinct(CellLinks(target, domain, tile, slot))
    ensures forall r :: r in CellLinks(target, domain, tile, slot) <==>
      r.Link? && r.domain == domain && r.tile == tile && r.slot == slot &&
      Neighbor(tile, r.direction, target.rows, target.cols).Some?
  {
  }

  // A cell lists each existing resource of its tile and slot once.
  lemma CellExact(target: TargetModel, tile: TileCoord, slot: nat)
    requires InArray(tile, target.rows, target.cols)
    ensures Distinct(CellResources(target, tile, slot))
    ensures forall r :: r in CellResources(target, tile, slot) <==>
      r.tile == tile && r.slot == slot && Exists(target, slot + 1, r)
  {
    CellLinksExact(target, Data, tile, slot);
    CellLinksExact(target, Predicate, tile, slot);
    var data, predicate' := CellLinks(target, Data, tile, slot), CellLinks(target, Predicate, tile, slot);
    var units := [FU(tile, slot)] + (if target.TileHasLSU(tile) then [LSU(tile, slot)] else []);
    DistinctConcat(data, predicate');
    assert forall r :: r in units ==> !r.Link?;
    var links := if target.meshLinks then data + predicate' else [];
    assert forall r :: r in links ==> r.Link?;
    DistinctConcat(units, links);
    assert CellResources(target, tile, slot) == units + links;
    forall r
      ensures r in units + links <==> r.tile == tile && r.slot == slot && Exists(target, slot + 1, r)
    {
      CellMember(target, tile, slot, r);
    }
  }

  lemma CellMember(target: TargetModel, tile: TileCoord, slot: nat, r: Resource)
    requires InArray(tile, target.rows, target.cols)
    ensures r in CellResources(target, tile, slot) <==>
      r.tile == tile && r.slot == slot && Exists(target, slot + 1, r)
  {
    CellLinksExact(target, Data, tile, slot);
    CellLinksExact(target, Predicate, tile, slot);
  }

  // Builds the numbering slot by slot, row by row, column by column.
  method BuildResourceModel(target: TargetModel, ii: nat) returns (model: ResourceModel)
    requires 0 < ii
    ensures model.Valid() && model.target == target && model.ii == ii
  {
    var resources: seq<Resource> := [];
    var ids: map<Resource, nat> := map[];
    for slot := 0 to ii
      invariant Numbered(resources, ids)
      invariant forall r :: r in ids <==> Exists(target, slot, r)
    {
      for row := 0 to target.rows
        invariant Numbered(resources, ids)
        invariant forall r :: r in ids <==>
          Exists(target, slot + 1, r) && (r.slot < slot || r.tile.row < row)
      {
        for col := 0 to target.cols
          invariant Numbered(resources, ids)
          invariant forall r :: r in ids <==>
            Exists(target, slot + 1, r) &&
            (r.slot < slot || r.tile.row < row || (r.tile.row == row && r.tile.col < col))
        {
          CellExact(target, TileCoord(row, col), slot);
          resources, ids := AddResources(CellResources(target, TileCoord(row, col), slot), resources, ids);
        }
      }
    }
    model := ResourceModel(target, ii, resources, ids);
  }

  method AddResources(cell: seq<Resource>, resources: seq<Resource>, ids: map<Resource, nat>)
    returns (resources': seq<Resource>, ids': map<Resource, nat>)
    requires Numbered(resources, ids)
    requires Distinct(cell)
    requires forall r :: r in cell ==> r !in ids
    ensures Numbered(resources', ids')
    ensures forall r :: r in ids' <==> r in ids || r in cell
  {
    resources', ids' := resources, ids;
    for i := 0 to |cell|
      invariant Numbered(resources', ids')
      invariant forall r :: r in ids' <==> r in ids || r in cell[..i]
    {
      assert cell[i] in cell && cell[..i + 1] == cell[..i] + [cell[i]];
      var id := |resources'|;
      resources' := resources' + [cell[i]];
      ids' := ids'[cell[i] := id];
    }
    assert cell[..|cell|] == cell;
  }
}

module Reservation {
  import opened Wrappers
  import opened Resources

  datatype OwnerKind = NodeOwner | EdgeOwner

  datatype Owner = Owner(kind: OwnerKind, id: nat)

  datatype Delta = Delta(owner: Owner, resources: seq<nat>)

  // The table with every listed resource handed to one owner (or freed).
  function Assign(owners: seq<Option<Owner>>, resources: seq<nat>, owner: Option<Owner>): (r: seq<Option<Owner>>)
    ensures |r| == |owners|
    ensures forall i :: 0 <= i < |r| ==> r[i] == if i in resources then owner else owners[i]
  {
    seq(|owners|, i requires 0 <= i < |owners| => if i in resources then owner else owners[i])
  }

  ghost predicate Reservable(owners: seq<Option<Owner>>, resources: seq<nat>) {
    && Distinct(resources)
    && forall i :: 0 <= i < |resources| ==> resources[i] < |owners| && owners[resources[i]].None?
  }

  // Freeing what was just reserved gives back the very same table.
  lemma UndoRestores(owners: seq<Option<Owner>>, resources: seq<nat>, owner: Owner)
    requires Reservable(owners, resources)
    ensures Assign(Assign(owners, resources, Some(owner)), resources, None) == owners
    ensures forall i :: 0 <= i < |resources| ==>
      resources[i] < |owners| && Assign(owners, resources, Some(owner))[resources[i]] == Some(owner)
  {
    var reserved := Assign(owners, resources, Some(owner));
    forall i | 0 <= i < |owners|
      ensures Assign(reserved, resources, None)[i] == owners[i]
    {
      if i in resources {
        var k :| 0 <= k < |resources| && resources[k] == i;
      }
    }
  }

  class ReservationTable {
    var owners: seq<Option<Owner>>

    constructor (model: ResourceModel)
      ensures owners == seq(|model.resources|, _ => None)
    {
      owners := seq(|model.resources|, _ => None);
    }

    predicate IsFree(resource: nat)
      requires resource < |owners|
      reads this
    {
      owners[resource].None?
    }

    lemma FreeMeans(resource: nat)
      requires resource < |owners|
      ensures IsFree(resource) <==> owners[resource].None?
    {
    }

    method CanReserve(resources: seq<nat>) returns (ok: bool)
      ensures ok <==> Reservable(owners, resources)
    {
      var unique: seq<nat> := [];
      for i := 0 to |resources|
        invariant unique == resources[..i]
        invariant Reservable(owners, unique)
      {
        var resource := resources[i];
        if resource >= |owners| || resource in unique || owners[resource].Some? {
          return false;
        }
        unique := unique + [resource];
      }
      assert unique == resources;
      return true;
    }

    method Reserve(resources: seq<nat>, owner: Owner) returns (ok: bool)
      modifies this
      ensures ok <==> Reservable(old(owners), resources)
      ensures owners == if ok then Assign(old(owners), resources, Some(owner)) else old(owners)
    {
      ok := CanReserve(resources);
      if ok {
        for i := 0 to |resources|
          invariant owners == Assign(old(owners), resources[..i], Some(owner))
        {
          assert resources[..i + 1] == resources[..i] + [resources[i]];
          owners := owners[resources[i] := Some(owner)];
        }
        assert resources[..|resources|] == resources;
      }
    }

    method TryReserve(resources: seq<nat>, owner: Owner) returns (delta: Option<Delta>)
      modifies this
      ensures delta.Some? <==> Reservable(old(owners), resources)
      ensures delta.Some? ==> delta.value == Delta(owner, resources)
      ensures owners == if delta.Some? then Assign(old(owners), resources, Some(owner)) else old(owners)
    {
      var ok := Reserve(resources, owner);
      delta := if ok then Some(Delta(owner, resources)) else None;
    }

    // Frees exactly resources held by `owner`; a mismatch changes nothing.
    method Release(resources: seq<nat>, owner: Owner) returns (ok: bool)
      modifies this
      ensures ok <==> forall i :: 0 <= i < |resources| ==>
        resources[i] < |old(owners)| && old(owners)[resources[i]] == Some(owner)
      ensures owners == if ok then Assign(old(owners), resources, None) else old(owners)
    {
      for i := 0 to |resources|
        invariant forall j :: 0 <= j < i ==> resources[j] < |owners| && owners[resources[j]] == Some(owner)
        invariant owners == old(owners)
      {
        if resources[i] >= |owners| || owners[resources[i]] != Some(owner) {
          return false;
        }
      }
      for i := 0 to |resources|
        invariant owners == Assign(old(owners), resources[..i], None)
      {
        assert resources[..i + 1] == resources[..i] + [resources[i]];
        owners := owners[resources[i] := None];
      }
      assert resources[..|resources|] == resources;
      return true;
    }

    method Undo(delta: Delta) returns (ok: bool)
      modifies this
      ensures ok <==> forall i :: 0 <= i < |delta.resources| ==>
        delta.resources[i] < |old(owners)| && old(owners)[delta.resources[i]] == Some(delta.owner)
      ensures owners == if ok then Assign(old(owners), delta.resources, None) else old(owners)
    {
      ok := Release(delta.resources, delta.owner);
    }
  }
}
