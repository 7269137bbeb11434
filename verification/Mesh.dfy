// Modulo time, the tile mesh and the target machine description.

module Mesh {
  import opened Wrappers
  import ModuloArithmetic

  const U32_MAX: int := 0xFFFF_FFFF

  /** 32-bit fields of transport plans and timing contracts. */
  type U32 = x: int | 0 <= x <= U32_MAX

  datatype TileCoord = TileCoord(row: nat, col: nat)

  datatype Direction = North | South | East | West

  datatype NetworkDomain = Data | Predicate

  /** The slot reached from `slot` after `delta` cycles. */
  function Advance(slot: nat, delta: nat, ii: nat): (r: nat)
    requires 0 < ii
    ensures r < ii
  {
    (slot + delta % ii) % ii
  }

  lemma AdvanceIsSum(slot: nat, delta: nat, ii: nat)
    requires 0 < ii
    ensures Advance(slot, delta, ii) == (slot + delta) % ii
  {
    ModuloArithmetic.ReduceRight(slot, delta, ii);
  }

  lemma AdvanceCompose(slot: nat, a: nat, b: nat, ii: nat)
    requires 0 < ii
    ensures Advance(Advance(slot, a, ii), b, ii) == Advance(slot, a + b, ii)
  {
    AdvanceIsSum(slot, a, ii);
    AdvanceIsSum(Advance(slot, a, ii), b, ii);
    AdvanceIsSum(slot, a + b, ii);
    ModuloArithmetic.ReduceLeft(slot + a, b, ii);
  }

  function Opposite(direction: Direction): Direction {
    match direction
    case North => South
    case South => North
    case East => West
    case West => East
  }

  predicate InArray(tile: TileCoord, rows: nat, cols: nat) {
    tile.row < rows && tile.col < cols
  }

  function Neighbor(tile: TileCoord, direction: Direction, rows: nat, cols: nat): Option<TileCoord> {
    if !InArray(tile, rows, cols) then None
    else match direction
      case North => if tile.row == 0 then None else Some(TileCoord(tile.row - 1, tile.col))
      case South => if tile.row + 1 >= rows then None else Some(TileCoord(tile.row + 1, tile.col))
      case East => if tile.col + 1 >= cols then None else Some(TileCoord(tile.row, tile.col + 1))
      case West => if tile.col == 0 then None else Some(TileCoord(tile.row, tile.col - 1))
  }

  // Every mesh link can be driven back the other way.
  lemma NeighborIsSymmetric(tile: TileCoord, direction: Direction, rows: nat, cols: nat)
    ensures var n := Neighbor(tile, direction, rows, cols);
            n.Some? ==> n.value != tile && InArray(n.value, rows, cols) &&
                        Neighbor(n.value, Opposite(direction), rows, cols) == Some(tile)
  {
  }
}

module Target {
  import opened Wrappers
  import opened Mesh

  datatype ExecutionClass = FUClass | LSUClass

  datatype Operation = Operation(
    executionClass: ExecutionClass,
    issueOccupancy: U32,
    resultLatency: Option<U32>,
    outputReady: Option<U32>)

  datatype MemoryDependence = RAW | WAR | WAW

  datatype TargetModel = TargetModel(
    name: string,
    rows: nat,
    cols: nat,
    lsuTiles: seq<TileCoord>,
    operations: map<string, Operation>,
    defaultFuOperations: set<string>,
    tileOverrides: map<TileCoord, set<string>>,
    meshLinks: bool,
    hopLatency: U32,
    rawSeparation: U32,
    warSeparation: U32,
    wawSeparation: U32)
  {
    predicate TileHasLSU(tile: TileCoord) {
      tile in lsuTiles
    }

    predicate TileSupports(tile: TileCoord, operation: string) {
      InArray(tile, rows, cols) && operation in operations &&
      match operations[operation].executionClass
      case LSUClass => TileHasLSU(tile)
      case FUClass => operation in (if tile in tileOverrides then tileOverrides[tile] else defaultFuOperations)
    }

    function MemorySeparation(dependence: MemoryDependence): U32 {
      match dependence
      case RAW => rawSeparation
      case WAR => warSeparation
      case WAW => wawSeparation
    }

    // What the target loader guarantees of every description it accepts.
    predicate Valid() {
      && 0 < rows && 0 < cols
      && (forall i, j :: 0 <= i < j < |lsuTiles| ==> lsuTiles[i] != lsuTiles[j])
      && (forall i :: 0 <= i < |lsuTiles| ==> InArray(lsuTiles[i], rows, cols))
      && (forall name :: name in operations ==> 0 < operations[name].issueOccupancy)
      && (forall name :: name in operations ==>
            operations[name].resultLatency.Some? == operations[name].outputReady.Some?)
      && (forall name :: name in operations && operations[name].resultLatency.Some? ==>
            0 < operations[name].resultLatency.value)
      && 0 < hopLatency && 0 < rawSeparation && 0 < warSeparation && 0 < wawSeparation
    }

    // The tiles that can execute an operation, in row-major order without repeats.
    method CompatibleTiles(operation: string) returns (tiles: seq<TileCoord>)
      ensures forall t :: t in tiles <==> TileSupports(t, operation)
      ensures forall i, j :: 0 <= i < j < |tiles| ==> tiles[i] != tiles[j]
    {
      tiles := [];
      for row := 0 to rows
        invariant forall t :: t in tiles <==> t.row < row && TileSupports(t, operation)
        invariant forall i, j :: 0 <= i < j < |tiles| ==> tiles[i] != tiles[j]
      {
        for col := 0 to cols
          invariant forall t :: t in tiles <==>
            (t.row < row || (t.row == row && t.col < col)) && TileSupports(t, operation)
          invariant forall i, j :: 0 <= i < j < |tiles| ==> tiles[i] != tiles[j]
        {
          if TileSupports(TileCoord(row, col), operation) {
            assert forall i :: 0 <= i < |tiles| ==> tiles[i] in tiles;
            tiles := tiles + [TileCoord(row, col)];
          }
        }
      }
    }
  }

  datatype TargetNode = TargetNode(
    id: nat,
    operation: string,
    executionClass: ExecutionClass,
    issueOccupancy: U32,
    resultLatency: Option<U32>,
    outputReady: Option<U32>)

  datatype EdgeKind = DataEdge | PredicateEdge | MemoryEdge

  datatype TargetEdge = TargetEdge(
    id: nat,
    src: nat,
    dst: nat,
    distance: U32,
    kind: EdgeKind,
    dependence: MemoryDependence)  // read for memory edges only

  function NodeId(node: TargetNode): nat {
    node.id
  }

  function EdgeId(edge: TargetEdge): nat {
    edge.id
  }

  function DomainOf(kind: EdgeKind): NetworkDomain {
    if kind == PredicateEdge then Predicate else Data
  }

  datatype TargetDFG = TargetDFG(targetName: string, nodes: seq<TargetNode>, edges: seq<TargetEdge>) {
    ghost function NodeIds(): set<nat> {
      set i | 0 <= i < |nodes| :: nodes[i].id
    }

    ghost function EdgeIds(): set<nat> {
      set i | 0 <= i < |edges| :: edges[i].id
    }

    predicate UniqueIds() {
      && (forall i, j :: 0 <= i < j < |nodes| ==> nodes[i].id != nodes[j].id)
      && (forall i, j :: 0 <= i < j < |edges| ==> edges[i].id != edges[j].id)
    }

    predicate HasNode(id: nat) {
      exists i :: 0 <= i < |nodes| && nodes[i].id == id
    }

    predicate HasEdge(id: nat) {
      exists i :: 0 <= i < |edges| && edges[i].id == id
    }

    function Node(id: nat): (node: TargetNode)
      requires HasNode(id)
      ensures node in nodes && node.id == id
    {
      FindNode(nodes, id)
    }

    function Edge(id: nat): (edge: TargetEdge)
      requires HasEdge(id)
      ensures edge in edges && edge.id == id
    {
      FindEdge(edges, id)
    }

    // The checks of the target graph verifier that mapping relies on.
    predicate Valid(target: TargetModel) {
      && UniqueIds()
      && (forall node :: node in nodes ==> NodeMatchesTarget(node, target))
      && (forall edge :: edge in edges ==> HasNode(edge.src) && HasNode(edge.dst))
      && (forall edge :: edge in edges && edge.kind != MemoryEdge ==> Node(edge.src).outputReady.Some?)
    }

    lemma NodeUnique(node: TargetNode)
      requires UniqueIds() && node in nodes
      ensures HasNode(node.id) && Node(node.id) == node
    {
      var i :| 0 <= i < |nodes| && nodes[i] == node;
      assert HasNode(node.id);
      assert HasNode(nodes[i].id);
      var j :| 0 <= j < |nodes| && nodes[j] == Node(node.id);
    }

    lemma EdgeUnique(edge: TargetEdge)
      requires UniqueIds() && edge in edges
      ensures HasEdge(edge.id) && Edge(edge.id) == edge
    {
      var i :| 0 <= i < |edges| && edges[i] == edge;
      assert HasEdge(edge.id);
      assert HasEdge(edges[i].id);
      var j :| 0 <= j < |edges| && edges[j] == Edge(edge.id);
    }
  }

  function FindNode(nodes: seq<TargetNode>, id: nat): (node: TargetNode)
    requires exists i :: 0 <= i < |nodes| && nodes[i].id == id
    ensures node in nodes && node.id == id
  {
    if nodes[0].id == id then nodes[0] else FindNode(nodes[1..], id)
  }

  function FindEdge(edges: seq<TargetEdge>, id: nat): (edge: TargetEdge)
    requires exists i :: 0 <= i < |edges| && edges[i].id == id
    ensures edge in edges && edge.id == id
  {
    if edges[0].id == id then edges[0] else FindEdge(edges[1..], id)
  }

  predicate NodeMatchesTarget(node: TargetNode, target: TargetModel) {
    node.operation in target.operations &&
    var operation := target.operations[node.operation];
    && operation.executionClass == node.executionClass
    && operation.issueOccupancy == node.issueOccupancy
    && operation.resultLatency == node.resultLatency
    && operation.outputReady == node.outputReady
    && exists row, col :: 0 <= row < target.rows && 0 <= col < target.cols &&
                          target.TileSupports(TileCoord(row, col), node.operation)
  }
}
