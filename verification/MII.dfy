// Lower bounds on the initiation interval: resources and recurrences.

module MII {
  import opened Wrappers
  import opened Mesh
  import opened Target
  import opened Resources
  import opened Ordering
  import opened Mapping
  import opened Realisability
  import opened ResourceBound
  import Recurrence
  import ModuloArithmetic

  datatype MIIStatus =
    | Success
    | InvalidTargetDFG
    | NoCompatibleResource
    | UnschedulableZeroDistanceCycle
    | TargetContractError
    | InternalError

  datatype MIIResult = MIIResult(status: MIIStatus, resourceMII: nat, recurrenceMII: nat, mii: nat,
                                 cycle: Option<Recurrence.Witness>)

  function Failed(status: MIIStatus): MIIResult {
    MIIResult(status, 0, 0, 0, None)
  }

  // ----- Rounding up -----

  function CeilDivToMII(numerator: nat, denominator: nat): (bound: Option<nat>)
    ensures bound.Some? ==> bound.value <= U32_MAX
  {
    if numerator == 0 then Some(1)
    else if denominator == 0 then None
    else
      var rounded := numerator / denominator + (if numerator % denominator == 0 then 0 else 1);
      if rounded > U32_MAX then None else Some(rounded)
  }

  // The rounded quotient is the least II that offers enough.
  lemma CeilIsLeast(numerator: nat, denominator: nat, ii: nat)
    requires CeilDivToMII(numerator, denominator).Some? && 1 <= ii
    ensures 1 <= CeilDivToMII(numerator, denominator).value
    ensures numerator <= denominator * ii <==> ii >= CeilDivToMII(numerator, denominator).value
  {
    if numerator > 0 {
      var q, r := numerator / denominator, numerator % denominator;
      assert numerator == q * denominator + r;
      ModuloArithmetic.MultipleBounds(ii - q, denominator);
      ModuloArithmetic.MultipleBounds(ii - q - 1, denominator);
      assert denominator * ii - q * denominator == (ii - q) * denominator;
      if q == 0 {
        assert r == numerator;
      }
    }
  }

  // Where the quotient does not fit 32 bits, no 32-bit II offers enough.
  lemma NoCeilMeansTooMuch(numerator: nat, denominator: nat, ii: nat)
    requires CeilDivToMII(numerator, denominator).None? && 1 <= ii <= U32_MAX
    ensures numerator > denominator * ii
  {
    if denominator > 0 {
      var q, r := numerator / denominator, numerator % denominator;
      assert numerator == q * denominator + r;
      ModuloArithmetic.MultipleBounds(q - ii, denominator);
      assert q * denominator - denominator * ii == (q - ii) * denominator;
    }
  }

  // ----- Resource bound -----

  method CompatibleResourceCount(target: TargetModel, operation: string) returns (count: nat)
    requires target.Valid() && operation in target.operations
    ensures count == |SupportingTiles(target, operation)|
  {
    if target.operations[operation].executionClass == LSUClass {
      LsuTileCount(target);
      assert LsuTiles(target) == SupportingTiles(target, operation);
      return |target.lsuTiles|;
    }
    var tiles := target.CompatibleTiles(operation);
    TilesCounted(target, operation, tiles);
    count := |tiles|;
  }

  /** What the nodes ask for, by class, by operation and alone. */
  datatype Demands = Demands(fu: nat, lsu: nat, selfOccupancy: nat, operations: map<string, nat>)

  ghost predicate Tallies(d: Demands, nodes: seq<TargetNode>) {
    && d.fu == Demand(OnUnit(FUClass), nodes) && d.lsu == Demand(OnUnit(LSUClass), nodes)
    && 1 <= d.selfOccupancy && (forall node :: node in nodes ==> node.issueOccupancy <= d.selfOccupancy)
    && (d.selfOccupancy == 1 || exists node :: node in nodes && node.issueOccupancy == d.selfOccupancy)
    && (forall operation :: operation in d.operations ==> d.operations[operation] == Demand(Running(operation), nodes))
    && (forall operation :: operation !in d.operations ==> Demand(Running(operation), nodes) == 0)
  }

  method Tally(nodes: seq<TargetNode>) returns (d: Demands)
    ensures Tallies(d, nodes)
    ensures forall operation :: operation in d.operations ==> exists node :: node in nodes && node.operation == operation
  {
    d := Demands(0, 0, 1, map[]);
    for i := 0 to |nodes|
      invariant Tallies(d, nodes[..i])
      invariant forall operation :: operation in d.operations ==> exists node :: node in nodes && node.operation == operation
    {
      var node := nodes[i];
      var demand := node.issueOccupancy;
      var perOperation := (if node.operation in d.operations then d.operations[node.operation] else 0) + demand;
      var next := Demands(if node.executionClass == FUClass then d.fu + demand else d.fu,
                          if node.executionClass == LSUClass then d.lsu + demand else d.lsu,
                          if demand > d.selfOccupancy then demand else d.selfOccupancy,
                          d.operations[node.operation := perOperation]);
      TallyMore(d, next, nodes, i);
      d := next;
    }
    assert nodes[..|nodes|] == nodes;
  }

  lemma TallyMore(d: Demands, next: Demands, nodes: seq<TargetNode>, i: nat)
    requires i < |nodes| && Tallies(d, nodes[..i])
    requires var node := nodes[i];
      next == Demands(if node.executionClass == FUClass then d.fu + node.issueOccupancy else d.fu,
                      if node.executionClass == LSUClass then d.lsu + node.issueOccupancy else d.lsu,
                      if node.issueOccupancy > d.selfOccupancy then node.issueOccupancy else d.selfOccupancy,
                      d.operations[node.operation :=
                        (if node.operation in d.operations then d.operations[node.operation] else 0) + node.issueOccupancy])
    ensures Tallies(next, nodes[..i + 1])
  {
    assert nodes[..i + 1] == nodes[..i] + [nodes[i]] && nodes[..i + 1][..i] == nodes[..i];
    DemandMore(OnUnit(FUClass), nodes, i);
    DemandMore(OnUnit(LSUClass), nodes, i);
    forall operation
      ensures Demand(Running(operation), nodes[..i + 1]) ==
              Demand(Running(operation), nodes[..i]) +
              (if nodes[i].operation == operation then nodes[i].issueOccupancy else 0)
    {
      DemandMore(Running(operation), nodes, i);
    }
  }

  lemma DemandMore(selected: TargetNode -> bool, nodes: seq<TargetNode>, i: nat)
    requires i < |nodes|
    ensures Demand(selected, nodes[..i + 1]) ==
            Demand(selected, nodes[..i]) + (if selected(nodes[i]) then nodes[i].issueOccupancy else 0)
  {
    assert nodes[..i + 1][..i] == nodes[..i];
  }

  // From this II on, and only from it on, the resources suffice.
  ghost predicate ResourceThreshold(dfg: TargetDFG, target: TargetModel, bound: nat) {
    1 <= bound && forall ii: nat :: 1 <= ii ==> (ResourceFits(dfg, target, ii) <==> ii >= bound)
  }

  ghost predicate OperationsWithin(target: TargetModel, d: Demands, done: set<string>, ii: nat) {
    forall operation :: operation in done && operation in d.operations ==>
      d.operations[operation] <= |SupportingTiles(target, operation)| * ii
  }

  // Every listed operation is bounded by its own capacity.
  ghost predicate OperationThreshold(target: TargetModel, d: Demands, done: set<string>, bound: nat) {
    1 <= bound && forall ii: nat :: 1 <= ii ==> (OperationsWithin(target, d, done, ii) <==> ii >= bound)
  }

  // The operation alone asks for more than any 32-bit II offers.
  ghost predicate TooMuch(target: TargetModel, d: Demands, operation: string) {
    operation in d.operations && CeilDivToMII(d.operations[operation], |SupportingTiles(target, operation)|).None?
  }

  method OperationBound(target: TargetModel, d: Demands) returns (status: MIIStatus, bound: nat)
    requires target.Valid()
    requires forall operation :: operation in d.operations ==> operation in target.operations
    ensures status in {Success, NoCompatibleResource, InternalError}
    ensures status == Success ==> OperationThreshold(target, d, d.operations.Keys, bound)
    ensures status == NoCompatibleResource ==>
      exists operation :: operation in d.operations && SupportingTiles(target, operation) == {}
    ensures status == Success ==> bound <= U32_MAX
    ensures status == InternalError ==> exists operation :: operation in d.operations && TooMuch(target, d, operation)
  {
    bound := 1;
    status := Success;
    var remaining := d.operations.Keys;
    ghost var done: set<string> := {};
    while remaining != {}
      invariant done + remaining == d.operations.Keys && remaining <= d.operations.Keys
      invariant OperationThreshold(target, d, done, bound) && bound <= U32_MAX
      decreases remaining
    {
      var operation :| operation in remaining;
      remaining := remaining - {operation};
      var capacity := CompatibleResourceCount(target, operation);
      if capacity == 0 {
        return NoCompatibleResource, 1;
      }
      var own := CeilDivToMII(d.operations[operation], capacity);
      if own.None? {
        assert TooMuch(target, d, operation);
        return InternalError, 1;
      }
      OperationMore(target, d, done, bound, operation, own.value);
      bound := if own.value > bound then own.value else bound;
      done := done + {operation};
    }
    assert done == d.operations.Keys;
  }

  lemma OperationMore(target: TargetModel, d: Demands, done: set<string>, bound: nat, operation: string, own: nat)
    requires OperationThreshold(target, d, done, bound) && operation in d.operations
    requires CeilDivToMII(d.operations[operation], |SupportingTiles(target, operation)|) == Some(own)
    ensures OperationThreshold(target, d, done + {operation}, if own > bound then own else bound)
  {
    var bound' := if own > bound then own else bound;
    CeilIsLeast(d.operations[operation], |SupportingTiles(target, operation)|, 1);
    var done' := done + {operation};
    forall ii: nat | 1 <= ii
      ensures OperationsWithin(target, d, done', ii) <==> ii >= bound'
    {
      assert OperationsWithin(target, d, done, ii) <==> ii >= bound;
      CeilIsLeast(d.operations[operation], |SupportingTiles(target, operation)|, ii);
    }
  }

  // No II of 32 bits is enough.
  ghost predicate NeverFits(dfg: TargetDFG, target: TargetModel) {
    forall ii: nat :: 1 <= ii <= U32_MAX ==> !ResourceFits(dfg, target, ii)
  }

  lemma TooMuchNeverFits(dfg: TargetDFG, target: TargetModel, d: Demands)
    requires target.Valid() && dfg.Valid(target) && Tallies(d, dfg.nodes)
    requires CeilDivToMII(d.selfOccupancy, 1).None? || CeilDivToMII(d.fu, target.rows * target.cols).None? ||
             CeilDivToMII(d.lsu, |target.lsuTiles|).None? ||
             exists operation :: operation in d.operations && operation in target.operations && TooMuch(target, d, operation)
    ensures NeverFits(dfg, target)
  {
    hide TargetDFG.Valid, TargetModel.Valid, SupportingTiles, CeilDivToMII;
    forall ii: nat | 1 <= ii <= U32_MAX
      ensures !ResourceFits(dfg, target, ii)
    {
      if CeilDivToMII(d.selfOccupancy, 1).None? {
        NoCeilMeansTooMuch(d.selfOccupancy, 1, ii);
        SelfFits(dfg, d, ii);
      } else if CeilDivToMII(d.fu, target.rows * target.cols).None? {
        NoCeilMeansTooMuch(d.fu, target.rows * target.cols, ii);
      } else if CeilDivToMII(d.lsu, |target.lsuTiles|).None? {
        NoCeilMeansTooMuch(d.lsu, |target.lsuTiles|, ii);
      } else {
        var operation :| operation in d.operations && operation in target.operations && TooMuch(target, d, operation);
        NoCeilMeansTooMuch(d.operations[operation], |SupportingTiles(target, operation)|, ii);
      }
    }
  }

  /** The resource bound, exact: no smaller II offers the resources, and it only fails where no 32-bit II does. */
  method ResourceMII(dfg: TargetDFG, target: TargetModel) returns (status: MIIStatus, bound: nat)
    requires target.Valid() && dfg.Valid(target)
    ensures status in {Success, InternalError}
    ensures status == Success ==> ResourceThreshold(dfg, target, bound) && bound <= U32_MAX
    ensures status == InternalError ==> NeverFits(dfg, target)
  {
    var d := Tally(dfg.nodes);
    var fuCapacity, lsuCapacity := target.rows * target.cols, |target.lsuTiles|;
    CapacitiesExist(dfg, target, d);
    hide TargetDFG.Valid, TargetModel.Valid, SupportingTiles, CeilDivToMII, Tallies, TooMuch, NeverFits, ResourceThreshold,
         OperationThreshold;
    bound := 1;
    if (d.fu > 0 && fuCapacity == 0) || (d.lsu > 0 && lsuCapacity == 0) {
      status := NoCompatibleResource;
      return;
    }
    var selfBound := CeilDivToMII(d.selfOccupancy, 1);
    var fuBound := CeilDivToMII(d.fu, fuCapacity);
    var lsuBound := CeilDivToMII(d.lsu, lsuCapacity);
    if selfBound.None? || fuBound.None? || lsuBound.None? {
      TooMuchNeverFits(dfg, target, d);
      return InternalError, 1;
    }
    var perOperation;
    status, perOperation := OperationBound(target, d);
    if status != Success {
      TooMuchNeverFits(dfg, target, d);
      return;
    }
    bound := Max(Max(1, selfBound.value), Max(Max(1, fuBound.value), Max(Max(1, lsuBound.value), perOperation)));
    BoundsTogether(dfg, target, d, selfBound.value, fuBound.value, lsuBound.value, perOperation, bound);
  }

  function Max(a: nat, b: nat): nat {
    if a > b then a else b
  }

  // A valid graph only uses operations some tile supports.
  lemma CapacitiesExist(dfg: TargetDFG, target: TargetModel, d: Demands)
    requires target.Valid() && dfg.Valid(target) && Tallies(d, dfg.nodes)
    requires forall operation :: operation in d.operations ==>
      exists node :: node in dfg.nodes && node.operation == operation
    ensures 0 < target.rows * target.cols && (d.lsu > 0 ==> 0 < |target.lsuTiles|)
    ensures forall operation :: operation in d.operations ==>
      operation in target.operations && SupportingTiles(target, operation) != {}
  {
    ModuloArithmetic.PositiveProduct(target.rows, target.cols);
    LsuSupported(dfg, target);
    hide TargetDFG.Valid, TargetModel.Valid, SupportingTiles;
    forall operation | operation in d.operations
      ensures operation in target.operations && SupportingTiles(target, operation) != {}
    {
      var node :| node in dfg.nodes && node.operation == operation;
      Supported(dfg, target, node);
    }
  }

  lemma LsuSupported(dfg: TargetDFG, target: TargetModel)
    requires dfg.Valid(target)
    ensures Demand(OnUnit(LSUClass), dfg.nodes) > 0 ==> 0 < |target.lsuTiles|
  {
    if Demand(OnUnit(LSUClass), dfg.nodes) > 0 {
      var node := Demanding(OnUnit(LSUClass), dfg.nodes);
      assert NodeMatchesTarget(node, target);
    }
  }

  lemma Supported(dfg: TargetDFG, target: TargetModel, node: TargetNode)
    requires dfg.Valid(target) && node in dfg.nodes
    ensures node.operation in target.operations && SupportingTiles(target, node.operation) != {}
  {
    assert NodeMatchesTarget(node, target);
    var row, col :| 0 <= row < target.rows && 0 <= col < target.cols &&
                    target.TileSupports(TileCoord(row, col), node.operation);
    assert TileCoord(row, col) in SupportingTiles(target, node.operation);
  }

  lemma Demanding(selected: TargetNode -> bool, nodes: seq<TargetNode>) returns (node: TargetNode)
    requires Demand(selected, nodes) > 0
    ensures node in nodes && selected(node)
  {
    if selected(nodes[|nodes| - 1]) && nodes[|nodes| - 1].issueOccupancy > 0 {
      node := nodes[|nodes| - 1];
    } else {
      node := Demanding(selected, nodes[..|nodes| - 1]);
    }
  }

  // The largest of the four bounds is the exact threshold.
  lemma BoundsTogether(dfg: TargetDFG, target: TargetModel, d: Demands, self: nat, fu: nat, lsu: nat,
                       perOperation: nat, bound: nat)
    requires target.Valid() && dfg.Valid(target) && Tallies(d, dfg.nodes)
    requires CeilDivToMII(d.selfOccupancy, 1) == Some(self)
    requires CeilDivToMII(d.fu, target.rows * target.cols) == Some(fu)
    requires CeilDivToMII(d.lsu, |target.lsuTiles|) == Some(lsu)
    requires OperationThreshold(target, d, d.operations.Keys, perOperation)
    requires bound == Max(Max(1, self), Max(Max(1, fu), Max(Max(1, lsu), perOperation)))
    ensures ResourceThreshold(dfg, target, bound)
  {
    hide TargetDFG.Valid, TargetModel.Valid, SupportingTiles, CeilDivToMII, OperationThreshold;
    forall ii: nat | 1 <= ii
      ensures ResourceFits(dfg, target, ii) <==> ii >= bound
    {
      CeilIsLeast(d.selfOccupancy, 1, ii);
      CeilIsLeast(d.fu, target.rows * target.cols, ii);
      CeilIsLeast(d.lsu, |target.lsuTiles|, ii);
      SelfFits(dfg, d, ii);
      OperationsFit(dfg, target, d, perOperation, ii);
    }
  }

  lemma SelfFits(dfg: TargetDFG, d: Demands, ii: nat)
    requires Tallies(d, dfg.nodes) && 1 <= ii
    ensures d.selfOccupancy <= ii <==> forall node :: node in dfg.nodes ==> node.issueOccupancy <= ii
  {
  }

  lemma OperationsFit(dfg: TargetDFG, target: TargetModel, d: Demands, bound: nat, ii: nat)
    requires dfg.Valid(target) && Tallies(d, dfg.nodes) && 1 <= ii
    requires OperationThreshold(target, d, d.operations.Keys, bound)
    ensures ii >= bound <==> forall operation :: operation in target.operations ==>
      Demand(Running(operation), dfg.nodes) <= |SupportingTiles(target, operation)| * ii
  {
    hide SupportingTiles;
    assert OperationsWithin(target, d, d.operations.Keys, ii) <==> ii >= bound;
    forall operation | operation in d.operations && operation !in target.operations
      ensures d.operations[operation] == 0
    {
      Unused(dfg, target, operation, dfg.nodes);
    }
    forall operation | operation !in d.operations
      ensures Demand(Running(operation), dfg.nodes) <= |SupportingTiles(target, operation)| * ii
    {
    }
    forall operation | operation in d.operations && operation !in target.operations
      ensures d.operations[operation] <= |SupportingTiles(target, operation)| * ii
    {
    }
  }

  lemma {:induction false} Unused(dfg: TargetDFG, target: TargetModel, operation: string, nodes: seq<TargetNode>)
    requires dfg.Valid(target) && operation !in target.operations && forall node :: node in nodes ==> node in dfg.nodes
    ensures Demand(Running(operation), nodes) == 0
  {
    if nodes != [] {
      var last := nodes[|nodes| - 1];
      assert last in nodes;
      assert NodeMatchesTarget(last, target);
      Unused(dfg, target, operation, nodes[..|nodes| - 1]);
    }
  }

  // ----- Recurrence bound -----

  function EdgeSeparation(dfg: TargetDFG, target: TargetModel, edge: TargetEdge): nat {
    if edge.kind == MemoryEdge then target.MemorySeparation(edge.dependence)
    else if dfg.HasNode(edge.src) && dfg.Node(edge.src).resultLatency.Some?
         then dfg.Node(edge.src).resultLatency.value else 0
  }

  // Issue times in the unrolled loop, relative to the iteration, that meet every dependence.
  ghost predicate IssueTimes(dfg: TargetDFG, target: TargetModel, ii: nat, times: map<nat, int>) {
    && times.Keys == dfg.NodeIds()
    && forall edge :: edge in dfg.edges ==> EdgeMet(dfg, target, ii, times, edge)
  }

  ghost predicate EdgeMet(dfg: TargetDFG, target: TargetModel, ii: nat, times: map<nat, int>, edge: TargetEdge) {
    && edge.src in times && edge.dst in times
    && times[edge.dst] >= times[edge.src] + EdgeSeparation(dfg, target, edge) - edge.distance * ii
  }

  ghost predicate Schedulable(dfg: TargetDFG, target: TargetModel, ii: nat) {
    exists times :: IssueTimes(dfg, target, ii, times)
  }

  /** The time an edge leaves between its ends: its dependence's separation, or its producer's result latency. */
  ghost predicate LeavesTime(dfg: TargetDFG, target: TargetModel, ii: nat, times: map<nat, int>, edge: TargetEdge) {
    edge.src in times && edge.dst in times &&
    var apart := times[edge.dst] + edge.distance * ii - times[edge.src];
    && (edge.kind == MemoryEdge && edge.dependence == RAW ==> apart >= target.rawSeparation)
    && (edge.kind == MemoryEdge && edge.dependence == WAR ==> apart >= target.warSeparation)
    && (edge.kind == MemoryEdge && edge.dependence == WAW ==> apart >= target.wawSeparation)
    && (edge.kind != MemoryEdge ==> exists node :: node in dfg.nodes && node.id == edge.src && LateEnough(target, node, apart))
  }

  ghost predicate LateEnough(target: TargetModel, producer: TargetNode, apart: int) {
    && producer.operation in target.operations && target.operations[producer.operation].resultLatency.Some?
    && apart >= target.operations[producer.operation].resultLatency.value
  }

  // Issue times said without what the analysis counts for an edge.
  ghost predicate InTime(dfg: TargetDFG, target: TargetModel, ii: nat, times: map<nat, int>) {
    && (forall id :: id in times <==> exists node :: node in dfg.nodes && node.id == id)
    && forall edge :: edge in dfg.edges ==> LeavesTime(dfg, target, ii, times, edge)
  }

  ghost predicate Timetabled(dfg: TargetDFG, target: TargetModel, ii: nat) {
    exists times :: InTime(dfg, target, ii, times)
  }

  /** What is counted for an edge is the separation of its dependence or the latency of its producer's operation. */
  lemma SeparationCounted(dfg: TargetDFG, target: TargetModel, edge: TargetEdge)
    requires target.Valid() && dfg.Valid(target) && edge in dfg.edges
    ensures edge.kind == MemoryEdge && edge.dependence == RAW ==> EdgeSeparation(dfg, target, edge) == target.rawSeparation
    ensures edge.kind == MemoryEdge && edge.dependence == WAR ==> EdgeSeparation(dfg, target, edge) == target.warSeparation
    ensures edge.kind == MemoryEdge && edge.dependence == WAW ==> EdgeSeparation(dfg, target, edge) == target.wawSeparation
    ensures edge.kind != MemoryEdge ==> forall node :: node in dfg.nodes && node.id == edge.src ==>
      && node.operation in target.operations
      && target.operations[node.operation].resultLatency == Some(EdgeSeparation(dfg, target, edge))
  {
    if edge.kind != MemoryEdge {
      forall node | node in dfg.nodes && node.id == edge.src
        ensures node.operation in target.operations
        ensures target.operations[node.operation].resultLatency == Some(EdgeSeparation(dfg, target, edge))
      {
        dfg.NodeUnique(node);
        assert NodeMatchesTarget(node, target);
      }
    }
  }

  lemma EdgeInTime(dfg: TargetDFG, target: TargetModel, ii: nat, times: map<nat, int>, edge: TargetEdge)
    requires target.Valid() && dfg.Valid(target) && edge in dfg.edges
    ensures EdgeMet(dfg, target, ii, times, edge) <==> LeavesTime(dfg, target, ii, times, edge)
  {
    SeparationCounted(dfg, target, edge);
    assert dfg.HasNode(edge.src);
    var node :| node in dfg.nodes && node.id == edge.src;
    hide EdgeSeparation, TargetDFG.Valid, TargetModel.Valid, TargetDFG.HasNode;
  }

  /** Schedules by what is counted and schedules in plain terms are the same. */
  lemma TimetabledExactly(dfg: TargetDFG, target: TargetModel, ii: nat)
    requires target.Valid() && dfg.Valid(target)
    ensures Schedulable(dfg, target, ii) <==> Timetabled(dfg, target, ii)
  {
    forall times, edge | edge in dfg.edges
      ensures EdgeMet(dfg, target, ii, times, edge) <==> LeavesTime(dfg, target, ii, times, edge)
    {
      EdgeInTime(dfg, target, ii, times, edge);
    }
    hide EdgeMet, LeavesTime, TargetDFG.Valid, TargetModel.Valid;
    if Schedulable(dfg, target, ii) {
      var times :| IssueTimes(dfg, target, ii, times);
      assert InTime(dfg, target, ii, times);
    }
    if Timetabled(dfg, target, ii) {
      var times :| InTime(dfg, target, ii, times);
      assert IssueTimes(dfg, target, ii, times);
    }
  }

  lemma TimetabledAlways(dfg: TargetDFG, target: TargetModel)
    requires target.Valid() && dfg.Valid(target)
    ensures forall ii: nat :: Timetabled(dfg, target, ii) <==> Schedulable(dfg, target, ii)
  {
    hide *;
    forall ii: nat
      ensures Timetabled(dfg, target, ii) <==> Schedulable(dfg, target, ii)
    {
      TimetabledExactly(dfg, target, ii);
    }
  }

  // `index` numbers the nodes of `ordered` by their ids.
  ghost predicate Indexes(index: map<nat, nat>, ordered: seq<nat>, ids: set<nat>) {
    && index.Keys == ids
    && (forall id :: id in index ==> index[id] < |ordered| && ordered[index[id]] == id)
    && (forall i :: 0 <= i < |ordered| ==> ordered[i] in index && index[ordered[i]] == i)
  }

  function ConstraintFor(dfg: TargetDFG, target: TargetModel, index: map<nat, nat>, edge: TargetEdge)
    : Recurrence.Constraint
    requires edge.src in index && edge.dst in index
  {
    Recurrence.Constraint(edge.id, index[edge.src], index[edge.dst], edge.distance, EdgeSeparation(dfg, target, edge))
  }

  // The constraints are exactly those of the edges.
  ghost predicate Represents(constraints: seq<Recurrence.Constraint>, dfg: TargetDFG, target: TargetModel,
                             index: map<nat, nat>, edges: seq<TargetEdge>)
  {
    && |constraints| == |edges|
    && forall i :: 0 <= i < |edges| ==>
         edges[i].src in index && edges[i].dst in index &&
         constraints[i] == ConstraintFor(dfg, target, index, edges[i])
  }

  // Times per node and times per index are the same thing.
  lemma TimesTranslate(constraints: seq<Recurrence.Constraint>, dfg: TargetDFG, target: TargetModel,
                       index: map<nat, nat>, ordered: seq<nat>, edges: seq<TargetEdge>, ii: nat)
    requires Indexes(index, ordered, dfg.NodeIds()) && Represents(constraints, dfg, target, index, edges)
    requires forall edge :: edge in edges <==> edge in dfg.edges
    requires Recurrence.InGraph(constraints, |ordered|)
    ensures Recurrence.Feasible(constraints, |ordered|, ii) <==> Schedulable(dfg, target, ii)
  {
    hide EdgeSeparation, TargetDFG.NodeIds;
    if Recurrence.Feasible(constraints, |ordered|, ii) {
      var times :| Recurrence.Schedules(times, constraints, |ordered|, ii);
      ToNodeTimes(constraints, dfg, target, index, ordered, edges, ii, times);
    }
    if Schedulable(dfg, target, ii) {
      var times :| IssueTimes(dfg, target, ii, times);
      ToIndexTimes(constraints, dfg, target, index, ordered, edges, ii, times);
    }
  }

  lemma ToNodeTimes(constraints: seq<Recurrence.Constraint>, dfg: TargetDFG, target: TargetModel,
                    index: map<nat, nat>, ordered: seq<nat>, edges: seq<TargetEdge>, ii: nat, times: seq<int>)
    requires Indexes(index, ordered, dfg.NodeIds()) && Represents(constraints, dfg, target, index, edges)
    requires forall edge :: edge in edges <==> edge in dfg.edges
    requires Recurrence.InGraph(constraints, |ordered|)
    requires Recurrence.Schedules(times, constraints, |ordered|, ii)
    ensures Schedulable(dfg, target, ii)
  {
    hide EdgeSeparation, TargetDFG.NodeIds;
    var perNode := map id | id in index :: times[index[id]];
    forall edge | edge in dfg.edges
      ensures EdgeMet(dfg, target, ii, perNode, edge)
    {
      var i :| 0 <= i < |edges| && edges[i] == edge;
      assert Recurrence.Meets(times, constraints[i], ii);
    }
    assert perNode.Keys == dfg.NodeIds();
    assert IssueTimes(dfg, target, ii, perNode);
  }

  lemma ToIndexTimes(constraints: seq<Recurrence.Constraint>, dfg: TargetDFG, target: TargetModel,
                     index: map<nat, nat>, ordered: seq<nat>, edges: seq<TargetEdge>, ii: nat, times: map<nat, int>)
    requires Indexes(index, ordered, dfg.NodeIds()) && Represents(constraints, dfg, target, index, edges)
    requires forall edge :: edge in edges <==> edge in dfg.edges
    requires Recurrence.InGraph(constraints, |ordered|)
    requires IssueTimes(dfg, target, ii, times)
    ensures Recurrence.Feasible(constraints, |ordered|, ii)
  {
    hide EdgeSeparation, TargetDFG.NodeIds;
    var perIndex := seq(|ordered|, i requires 0 <= i < |ordered| => times[ordered[i]]);
    forall i | 0 <= i < |constraints|
      ensures Recurrence.Meets(perIndex, constraints[i], ii)
    {
      assert edges[i] in edges;
      assert EdgeMet(dfg, target, ii, times, edges[i]);
    }
    assert Recurrence.Schedules(perIndex, constraints, |ordered|, ii);
  }

  method NodeIndices(dfg: TargetDFG) returns (index: map<nat, nat>, ordered: seq<nat>)
    requires dfg.UniqueIds()
    ensures Indexes(index, ordered, dfg.NodeIds())
  {
    var nodes := SortBy(NodeId, dfg.nodes);
    SortKeeps(NodeId, dfg.nodes);
    ordered := KeysOf(NodeId, nodes);
    DistinctIds(nodes, ordered);
    hide *;
    index := map[];
    NoneNumbered(ordered);
    for i := 0 to |nodes|
      invariant Numbered(index, ordered, i)
    {
      NumberedMore(index, ordered, i);
      index := index[nodes[i].id := i];
    }
    SortedIds(dfg, ordered);
    AllNumbered(index, ordered, dfg.NodeIds());
  }

  // The first `count` ids have their numbers.
  ghost predicate Numbered(index: map<nat, nat>, ordered: seq<nat>, count: nat) {
    && (forall id :: id in index ==> index[id] < count && index[id] < |ordered| && ordered[index[id]] == id)
    && (forall j :: 0 <= j < count && j < |ordered| ==> ordered[j] in index && index[ordered[j]] == j)
  }

  lemma NoneNumbered(ordered: seq<nat>)
    ensures Numbered(map[], ordered, 0)
  {
  }

  lemma NumberedMore(index: map<nat, nat>, ordered: seq<nat>, i: nat)
    requires Numbered(index, ordered, i) && i < |ordered|
    requires forall j, k :: 0 <= j < k < |ordered| ==> ordered[j] != ordered[k]
    ensures Numbered(index[ordered[i] := i], ordered, i + 1)
  {
  }

  lemma AllNumbered(index: map<nat, nat>, ordered: seq<nat>, ids: set<nat>)
    requires Numbered(index, ordered, |ordered|) && forall id :: id in ordered <==> id in ids
    ensures Indexes(index, ordered, ids)
  {
  }

  lemma DistinctIds(nodes: seq<TargetNode>, ordered: seq<nat>)
    requires DistinctKeys(NodeId, nodes) && ordered == KeysOf(NodeId, nodes)
    ensures forall i, j :: 0 <= i < j < |ordered| ==> ordered[i] != ordered[j]
    ensures |ordered| == |nodes| && forall i :: 0 <= i < |nodes| ==> ordered[i] == nodes[i].id
  {
  }

  lemma SortedIds(dfg: TargetDFG, ordered: seq<nat>)
    requires ordered == KeysOf(NodeId, SortBy(NodeId, dfg.nodes))
    ensures forall id :: id in ordered <==> id in dfg.NodeIds()
  {
    var nodes := SortBy(NodeId, dfg.nodes);
    forall id
      ensures id in ordered <==> id in dfg.NodeIds()
    {
      if id in ordered {
        var i :| 0 <= i < |nodes| && ordered[i] == id;
        assert nodes[i] in dfg.nodes;
      }
      if id in dfg.NodeIds() {
        var i :| 0 <= i < |dfg.nodes| && dfg.nodes[i].id == id;
        assert dfg.nodes[i] in nodes;
        var j :| 0 <= j < |nodes| && nodes[j] == dfg.nodes[i];
        assert ordered[j] == id;
      }
    }
  }

  // The constraints in edge-id order with their total separation.
  method Constraints(dfg: TargetDFG, target: TargetModel, index: map<nat, nat>, edges: seq<TargetEdge>)
    returns (status: MIIStatus, constraints: seq<Recurrence.Constraint>, total: nat)
    requires target.Valid() && dfg.Valid(target)
    requires forall edge :: edge in edges ==> edge in dfg.edges && edge.src in index && edge.dst in index
    ensures status == Success
    ensures Represents(constraints, dfg, target, index, edges)
    ensures total == Recurrence.TotalSeparation(constraints) == TotalSeparation(dfg, target, edges)
    ensures forall c :: c in constraints ==> 0 < c.separation
  {
    hide TargetDFG.Valid, TargetModel.Valid, EdgeSeparation, Represents;
    status, constraints, total := Success, [], 0;
    NoConstraints(dfg, target, index, edges);
    for i := 0 to |edges|
      invariant status == Success && Represents(constraints, dfg, target, index, edges[..i])
      invariant total == Recurrence.TotalSeparation(constraints) == TotalSeparation(dfg, target, edges[..i])
      invariant forall c :: c in constraints ==> 0 < c.separation
    {
      var edge := edges[i];
      assert edge in edges;
      SeparationPositive(dfg, target, edge);
      var separation := EdgeSeparation(dfg, target, edge);
      if separation == 0 {
        status := TargetContractError;
        return;
      }
      var c := ConstraintFor(dfg, target, index, edge);
      assert (constraints + [c])[..|constraints|] == constraints;
      assert edges[..i + 1][..i] == edges[..i];
      RepresentsMore(constraints, dfg, target, index, edges, i);
      constraints := constraints + [c];
      total := total + separation;
    }
    assert edges[..|edges|] == edges;
  }

  lemma NoConstraints(dfg: TargetDFG, target: TargetModel, index: map<nat, nat>, edges: seq<TargetEdge>)
    ensures Represents([], dfg, target, index, edges[..0])
  {
  }

  lemma RepresentsMore(constraints: seq<Recurrence.Constraint>, dfg: TargetDFG, target: TargetModel,
                       index: map<nat, nat>, edges: seq<TargetEdge>, i: nat)
    requires i < |edges| && Represents(constraints, dfg, target, index, edges[..i])
    requires edges[i].src in index && edges[i].dst in index
    ensures Represents(constraints + [ConstraintFor(dfg, target, index, edges[i])], dfg, target, index, edges[..i + 1])
  {
  }

  lemma SeparationPositive(dfg: TargetDFG, target: TargetModel, edge: TargetEdge)
    requires target.Valid() && dfg.Valid(target) && edge in dfg.edges
    ensures 0 < EdgeSeparation(dfg, target, edge)
  {
    if edge.kind != MemoryEdge {
      var node := dfg.Node(edge.src);
      assert NodeMatchesTarget(node, target);
      assert node.outputReady.Some?;
    }
  }

  // ----- The analysis -----

  ghost function TotalSeparation(dfg: TargetDFG, target: TargetModel, edges: seq<TargetEdge>): nat {
    if edges == [] then 0
    else TotalSeparation(dfg, target, edges[..|edges| - 1]) + EdgeSeparation(dfg, target, edges[|edges| - 1])
  }

  ghost function TotalDistance(edges: seq<TargetEdge>): nat {
    if edges == [] then 0 else TotalDistance(edges[..|edges| - 1]) + edges[|edges| - 1].distance
  }

  // Each edge starts where the next one ends.
  ghost predicate EdgeChain(path: seq<TargetEdge>, first: nat, last: nat) {
    if path == [] then first == last
    else path[|path| - 1].src == last && EdgeChain(path[..|path| - 1], first, path[|path| - 1].dst)
  }

  /** A cycle of the graph that enters no node twice. */
  ghost predicate EdgeCycle(dfg: TargetDFG, path: seq<TargetEdge>) {
    && path != [] && EdgeChain(path, path[0].dst, path[0].dst)
    && (forall edge :: edge in path ==> edge in dfg.edges)
    && (forall i, j :: 0 <= i < j < |path| ==> path[i].dst != path[j].dst)
  }

  // The witness lists such a cycle's edges by id and adds up its separations and distances.
  ghost predicate Witnesses(dfg: TargetDFG, target: TargetModel, w: Recurrence.Witness, path: seq<TargetEdge>) {
    && EdgeCycle(dfg, path) && w.edges == KeysOf(EdgeId, SortBy(EdgeId, path))
    && w.totalSeparation == TotalSeparation(dfg, target, path) && w.totalDistance == TotalDistance(path)
  }

  ghost predicate WitnessedCycle(dfg: TargetDFG, target: TargetModel, cycle: Option<Recurrence.Witness>) {
    cycle.Some? && exists path :: Witnesses(dfg, target, cycle.value, path)
  }

  // A cycle of constraints is a cycle of edges.
  lemma CycleTranslates(dfg: TargetDFG, target: TargetModel, index: map<nat, nat>, ordered: seq<nat>, edges: seq<TargetEdge>,
                        constraints: seq<Recurrence.Constraint>, cs: seq<Recurrence.Constraint>, w: Recurrence.Witness)
    requires dfg.UniqueIds() && (forall edge :: edge in edges <==> edge in dfg.edges)
    requires Indexes(index, ordered, dfg.NodeIds()) && Represents(constraints, dfg, target, index, edges)
    requires Recurrence.Cycle(cs, constraints) && Recurrence.DistinctEnds(cs) && Recurrence.Reports(w, cs)
    ensures WitnessedCycle(dfg, target, Some(w))
  {
    hide EdgeSeparation, TargetDFG.NodeIds, Indexes, SortBy, KeysOf;
    var path := PathOf(dfg, target, index, edges, constraints, cs);
    hide Represents, TargetDFG.UniqueIds;
    SameTotals(dfg, target, index, cs, path);
    SameOrder(cs, path);
    SameChain(dfg, target, index, ordered, cs, path, path[0].dst, path[0].dst);
    assert forall i, j :: 0 <= i < j < |path| ==> cs[i].dst != cs[j].dst;
    assert Witnesses(dfg, target, w, path);
  }

  ghost predicate Follows(dfg: TargetDFG, target: TargetModel, index: map<nat, nat>, cs: seq<Recurrence.Constraint>,
                          path: seq<TargetEdge>)
  {
    && |path| == |cs|
    && forall k :: 0 <= k < |cs| ==>
         path[k].src in index && path[k].dst in index && cs[k] == ConstraintFor(dfg, target, index, path[k])
  }

  lemma PathOf(dfg: TargetDFG, target: TargetModel, index: map<nat, nat>, edges: seq<TargetEdge>,
               constraints: seq<Recurrence.Constraint>, cs: seq<Recurrence.Constraint>) returns (path: seq<TargetEdge>)
    requires Represents(constraints, dfg, target, index, edges) && forall edge :: edge in edges <==> edge in dfg.edges
    requires forall c :: c in cs ==> c in constraints
    ensures Follows(dfg, target, index, cs, path) && forall edge :: edge in path ==> edge in dfg.edges
  {
    hide EdgeSeparation;
    path := [];
    for k := 0 to |cs|
      invariant Follows(dfg, target, index, cs[..k], path) && forall edge :: edge in path ==> edge in dfg.edges
    {
      assert cs[k] in cs;
      var i :| 0 <= i < |constraints| && constraints[i] == cs[k];
      assert edges[i] in edges;
      path := path + [edges[i]];
    }
    assert cs[..|cs|] == cs;
  }

  lemma {:induction false} SameTotals(dfg: TargetDFG, target: TargetModel, index: map<nat, nat>,
                                      cs: seq<Recurrence.Constraint>, path: seq<TargetEdge>)
    requires Follows(dfg, target, index, cs, path)
    ensures Recurrence.TotalSeparation(cs) == TotalSeparation(dfg, target, path)
    ensures Recurrence.TotalDistance(cs) == TotalDistance(path)
  {
    hide EdgeSeparation;
    if cs != [] {
      SameTotals(dfg, target, index, cs[..|cs| - 1], path[..|path| - 1]);
    }
  }

  lemma {:induction false} SameChain(dfg: TargetDFG, target: TargetModel, index: map<nat, nat>, ordered: seq<nat>,
                                     cs: seq<Recurrence.Constraint>, path: seq<TargetEdge>, first: nat, last: nat)
    requires Follows(dfg, target, index, cs, path) && Indexes(index, ordered, dfg.NodeIds())
    requires first in index && last in index && Recurrence.Chain(cs, index[first], index[last])
    ensures EdgeChain(path, first, last)
  {
    hide EdgeSeparation, TargetDFG.NodeIds;
    if cs != [] {
      SameChain(dfg, target, index, ordered, cs[..|cs| - 1], path[..|path| - 1], first, path[|path| - 1].dst);
    }
  }

  lemma SameInsertion(c: Recurrence.Constraint, cs: seq<Recurrence.Constraint>, edge: TargetEdge, path: seq<TargetEdge>)
    requires c.edge == edge.id && KeysOf(Recurrence.EdgeOf, cs) == KeysOf(EdgeId, path)
    ensures KeysOf(Recurrence.EdgeOf, InsertBy(Recurrence.EdgeOf, c, cs)) == KeysOf(EdgeId, InsertBy(EdgeId, edge, path))
  {
    hide InsertBy, KeysOf;
    KeysOfInserted(Recurrence.EdgeOf, c, cs);
    KeysOfInserted(EdgeId, edge, path);
  }

  lemma {:induction false} SameOrder(cs: seq<Recurrence.Constraint>, path: seq<TargetEdge>)
    requires |cs| == |path| && forall k :: 0 <= k < |cs| ==> cs[k].edge == path[k].id
    ensures KeysOf(Recurrence.EdgeOf, SortBy(Recurrence.EdgeOf, cs)) == KeysOf(EdgeId, SortBy(EdgeId, path))
  {
    hide InsertBy;
    if cs != [] {
      SameOrder(cs[..|cs| - 1], path[..|path| - 1]);
      SameInsertion(cs[|cs| - 1], SortBy(Recurrence.EdgeOf, cs[..|cs| - 1]), path[|path| - 1],
                    SortBy(EdgeId, path[..|path| - 1]));
    }
  }

  /** Both bounds, exact, or the reason why there are none. */
  method Analyze(dfg: TargetDFG, target: TargetModel) returns (result: MIIResult)
    requires target.Valid()
    ensures result.status == InvalidTargetDFG <==> !dfg.Valid(target) || dfg.targetName != target.name
    ensures result.status in {Success, InvalidTargetDFG, UnschedulableZeroDistanceCycle, InternalError}
    ensures result.status == Success ==>
      ResourceThreshold(dfg, target, result.resourceMII) && result.mii == Max(result.resourceMII, result.recurrenceMII)
    ensures result.status == Success ==>
      && 1 <= result.recurrenceMII
      && (forall ii: nat :: 1 <= ii ==> (Schedulable(dfg, target, ii) <==> ii >= result.recurrenceMII))
      && (result.recurrenceMII > 1 ==>
            WitnessedCycle(dfg, target, result.cycle) &&
            result.cycle.value.totalSeparation > result.cycle.value.totalDistance * (result.recurrenceMII - 1))
    ensures result.status == UnschedulableZeroDistanceCycle ==>
      && WitnessedCycle(dfg, target, result.cycle) && result.cycle.value.totalDistance == 0
      && forall ii: nat :: !Schedulable(dfg, target, ii)
    ensures result.status == Success ==>
      forall ii: nat :: 1 <= ii ==> (Timetabled(dfg, target, ii) <==> ii >= result.recurrenceMII)
    ensures result.status == UnschedulableZeroDistanceCycle ==> forall ii: nat :: !Timetabled(dfg, target, ii)
    ensures result.status == InternalError ==>
      NeverFits(dfg, target) || TotalSeparation(dfg, target, SortBy(EdgeId, dfg.edges)) > U32_MAX
  {
    hide *;
    if !dfg.Valid(target) || dfg.targetName != target.name {
      return MIIResult(InvalidTargetDFG, 0, 0, 0, None);
    }
    UniqueIn(dfg, target);
    TimetabledAlways(dfg, target);
    var status, resourceMII := ResourceMII(dfg, target);
    if status != Success {
      return MIIResult(status, 0, 0, 0, None);
    }
    var index, ordered := NodeIndices(dfg);
    var edges := SortBy(EdgeId, dfg.edges);
    EndpointsIndexed(dfg, target, index, ordered);
    var constraints, total;
    status, constraints, total := Constraints(dfg, target, index, edges);
    if status != Success {
      return Failed(status);
    }
    var recurrenceMII, cycle;
    status, recurrenceMII, cycle := RecurrenceMII(dfg, target, index, ordered, edges, constraints, total);
    if status == UnschedulableZeroDistanceCycle {
      return MIIResult(status, resourceMII, 0, 0, cycle);
    }
    if status != Success {
      return MIIResult(status, resourceMII, 0, 0, None);
    }
    result := MIIResult(Success, resourceMII, recurrenceMII, Max(resourceMII, recurrenceMII), cycle);
  }

  // The least II that has a schedule for the constraints of all edges.
  method RecurrenceMII(dfg: TargetDFG, target: TargetModel, ghost index: map<nat, nat>, ordered: seq<nat>,
                       ghost edges: seq<TargetEdge>, constraints: seq<Recurrence.Constraint>, total: nat)
    returns (status: MIIStatus, recurrenceMII: nat, cycle: Option<Recurrence.Witness>)
    requires dfg.UniqueIds() && Indexes(index, ordered, dfg.NodeIds()) && Represents(constraints, dfg, target, index, edges)
    requires forall edge :: edge in edges <==> edge in dfg.edges
    requires total == Recurrence.TotalSeparation(constraints) && forall c :: c in constraints ==> 0 < c.separation
    ensures status in {Success, UnschedulableZeroDistanceCycle, InternalError}
    ensures status == Success ==>
      && 1 <= recurrenceMII
      && (forall ii: nat :: 1 <= ii ==> (Schedulable(dfg, target, ii) <==> ii >= recurrenceMII))
      && (recurrenceMII > 1 ==>
            WitnessedCycle(dfg, target, cycle) &&
            cycle.value.totalSeparation > cycle.value.totalDistance * (recurrenceMII - 1))
    ensures status == UnschedulableZeroDistanceCycle ==>
      && WitnessedCycle(dfg, target, cycle) && cycle.value.totalDistance == 0
      && forall ii: nat :: !Schedulable(dfg, target, ii)
    ensures status == InternalError ==> total > U32_MAX
  {
    hide *;
    RepresentsInGraph(constraints, dfg, target, index, ordered, edges);
    var bounded;
    ghost var cs;
    bounded, recurrenceMII, cycle, cs := Recurrence.RecurrenceBound(constraints, |ordered|, total, U32_MAX);
    forall ii: nat
      ensures Recurrence.Feasible(constraints, |ordered|, ii) <==> Schedulable(dfg, target, ii)
    {
      TimesTranslate(constraints, dfg, target, index, ordered, edges, ii);
    }
    if bounded == Recurrence.ZeroDistanceCycle {
      CycleFound(constraints, cs, 0, cycle.value);
      CycleTranslates(dfg, target, index, ordered, edges, constraints, cs, cycle.value);
      status := UnschedulableZeroDistanceCycle;
    } else if bounded == Recurrence.Bounded {
      BoundIsThreshold(constraints, |ordered|, recurrenceMII);
      if recurrenceMII > 1 {
        CycleFound(constraints, cs, recurrenceMII - 1, cycle.value);
        CycleTranslates(dfg, target, index, ordered, edges, constraints, cs, cycle.value);
      }
      status := Success;
    } else {
      status := InternalError;
    }
  }

  lemma UniqueIn(dfg: TargetDFG, target: TargetModel)
    requires dfg.Valid(target)
    ensures dfg.UniqueIds()
  {
  }

  lemma CycleFound(constraints: seq<Recurrence.Constraint>, cs: seq<Recurrence.Constraint>, ii: int, w: Recurrence.Witness)
    requires Recurrence.Reports(w, cs)
    ensures Recurrence.Overfull(cs, constraints, ii) ==>
      Recurrence.Cycle(cs, constraints) && Recurrence.DistinctEnds(cs) && w.totalSeparation > w.totalDistance * ii
    ensures Recurrence.TotalDistance(cs) == 0 ==> w.totalDistance == 0
  {
    hide Recurrence.TotalDistance, Recurrence.TotalSeparation, SortBy, KeysOf;
  }

  lemma BoundIsThreshold(constraints: seq<Recurrence.Constraint>, n: nat, bound: nat)
    requires Recurrence.InGraph(constraints, n) && Recurrence.Threshold(constraints, n, bound)
    ensures 1 <= bound && forall ii: nat :: 1 <= ii ==> (Recurrence.Feasible(constraints, n, ii) <==> ii >= bound)
  {
    hide Recurrence.Feasible, Recurrence.InGraph;
  }

  lemma EndpointsIndexed(dfg: TargetDFG, target: TargetModel, index: map<nat, nat>, ordered: seq<nat>)
    requires dfg.Valid(target) && Indexes(index, ordered, dfg.NodeIds())
    ensures forall edge :: edge in dfg.edges ==> edge.src in index && edge.dst in index
  {
  }

  lemma RepresentsInGraph(constraints: seq<Recurrence.Constraint>, dfg: TargetDFG, target: TargetModel,
                          index: map<nat, nat>, ordered: seq<nat>, edges: seq<TargetEdge>)
    requires Indexes(index, ordered, dfg.NodeIds()) && Represents(constraints, dfg, target, index, edges)
    ensures Recurrence.InGraph(constraints, |ordered|)
  {
  }

  /** No legal mapping of an analysed graph has an II below the resource bound. */
  lemma LegalRespectsResourceMII(dfg: TargetDFG, target: TargetModel, mapping: ModuloMapping, resourceMII: nat)
    requires target.Valid() && dfg.Valid(target) && Legal(dfg, target, mapping)
    requires ResourceThreshold(dfg, target, resourceMII)
    ensures mapping.ii >= resourceMII
  {
    LegalFits(dfg, target, mapping);
  }

  // Below the bound either no schedule exists or no mapping is legal.
  ghost predicate NothingBelow(dfg: TargetDFG, target: TargetModel, bound: nat) {
    forall ii: nat :: 1 <= ii < bound ==> !Schedulable(dfg, target, ii) || NoLegalMapping(dfg, target, ii)
  }

  ghost predicate NoLegalMapping(dfg: TargetDFG, target: TargetModel, ii: nat) {
    forall mapping: ModuloMapping :: Legal(dfg, target, mapping) ==> mapping.ii != ii
  }

  lemma NothingBelowZero(dfg: TargetDFG, target: TargetModel)
    ensures NothingBelow(dfg, target, 0)
  {
  }

  /** The larger of the two bounds is one: nothing works below it. */
  lemma BoundsCombine(dfg: TargetDFG, target: TargetModel, resourceMII: nat, recurrenceMII: nat)
    requires target.Valid() && dfg.Valid(target) && ResourceThreshold(dfg, target, resourceMII)
    requires forall ii: nat :: 1 <= ii ==> (Schedulable(dfg, target, ii) <==> ii >= recurrenceMII)
    ensures NothingBelow(dfg, target, Max(resourceMII, recurrenceMII))
  {
    hide Legal, ResourceThreshold, Schedulable, TargetModel.Valid, TargetDFG.Valid;
    forall ii: nat | 1 <= ii < resourceMII
      ensures NoLegalMapping(dfg, target, ii)
    {
      forall mapping: ModuloMapping | Legal(dfg, target, mapping)
        ensures mapping.ii != ii
      {
        LegalRespectsResourceMII(dfg, target, mapping, resourceMII);
      }
    }
  }

  // Both bounds are exact, and this is the larger of them.
  ghost predicate IsBound(dfg: TargetDFG, target: TargetModel, bound: nat) {
    exists resourceMII, recurrenceMII ::
      ResourceThreshold(dfg, target, resourceMII) && ScheduleThreshold(dfg, target, recurrenceMII) &&
      bound == Max(resourceMII, recurrenceMII)
  }

  ghost predicate ScheduleThreshold(dfg: TargetDFG, target: TargetModel, bound: nat) {
    1 <= bound && forall ii: nat :: 1 <= ii ==> (Schedulable(dfg, target, ii) <==> ii >= bound)
  }

  // Why there is no bound to start from: too much demand or separation for 32 bits, no schedule, or nothing below 2^32 - 1.
  ghost predicate AnalysisFails(dfg: TargetDFG, target: TargetModel) {
    || NeverFits(dfg, target)
    || TotalSeparation(dfg, target, SortBy(EdgeId, dfg.edges)) > U32_MAX
    || (forall ii: nat :: !Schedulable(dfg, target, ii))
    || NothingBelow(dfg, target, U32_MAX)
  }

  lemma AnalysisExplained(dfg: TargetDFG, target: TargetModel, result: MIIResult)
    requires result.status == UnschedulableZeroDistanceCycle ==> forall ii: nat :: !Schedulable(dfg, target, ii)
    requires result.status == InternalError ==>
      NeverFits(dfg, target) || TotalSeparation(dfg, target, SortBy(EdgeId, dfg.edges)) > U32_MAX
    ensures result.status in {UnschedulableZeroDistanceCycle, InternalError} ==> AnalysisFails(dfg, target)
  {
    hide NeverFits, TotalSeparation, Schedulable, NothingBelow;
  }

  lemma BoundFound(dfg: TargetDFG, target: TargetModel, result: MIIResult)
    requires ResourceThreshold(dfg, target, result.resourceMII) && 1 <= result.recurrenceMII
    requires forall ii: nat :: 1 <= ii ==> (Schedulable(dfg, target, ii) <==> ii >= result.recurrenceMII)
    requires result.mii == Max(result.resourceMII, result.recurrenceMII)
    requires NothingBelow(dfg, target, result.mii)
    ensures IsBound(dfg, target, result.mii) && 1 <= result.mii
    ensures result.mii == U32_MAX ==> AnalysisFails(dfg, target)
  {
    hide NeverFits, TotalSeparation, Schedulable, NothingBelow, ResourceFits;
    assert ScheduleThreshold(dfg, target, result.recurrenceMII);
  }
}
