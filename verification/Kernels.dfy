// Loop kernels as dataflow graphs, and what they compute iteration by iteration.

module Kernels {
  import opened Wrappers

  const ID_VALUES: nat := 0x1_0000_0000

  datatype ValueType = Integer(bits: nat) | Predicate | Float(bits: nat) | Void

  datatype Opcode = Add | Sub | Mul | And | Or | Xor | Shl | LShr | AShr | ICmp(relation: nat) | Select | Load | Store

  /** A node; a store made for a live-out carries the live-out's ID in its label. */
  datatype Node = Node(opcode: Opcode, resultType: ValueType, operandTypes: seq<ValueType>, liveOutLabel: Option<nat>)

  datatype ValueRef = ExternalRef(id: nat) | ConstantRef(id: nat)

  datatype BoundaryValue = BoundaryValue(offset: nat, value: ValueRef)

  datatype Dependence = RAW | WAR | WAW

  datatype EdgeInfo =
    | DataEdge(operand: nat, boundary: Option<seq<BoundaryValue>>)
    | PredicateEdge(operand: nat, boundary: Option<seq<BoundaryValue>>)
    | MemoryEdge(dependence: Dependence)

  datatype Edge = Edge(src: nat, dst: nat, distance: nat, info: EdgeInfo)

  datatype Constant = Constant(valueType: ValueType, bits: nat)

  datatype External = External(name: string, valueType: ValueType)

  datatype LiveOut = LiveOut(valueType: ValueType, source: nat)

  datatype Dfg = Dfg(
    nodes: map<nat, Node>,
    edges: map<nat, Edge>,
    externals: map<nat, External>,
    constants: map<nat, Constant>,
    liveOuts: map<nat, LiveOut>,
    bindings: map<(nat, nat), ValueRef>)

  // The edge carries a value into this operand.
  predicate Feeds(edge: Edge, node: nat, operand: nat) {
    !edge.info.MemoryEdge? && edge.dst == node && edge.info.operand == operand
  }

  predicate Known(dfg: Dfg, ref: ValueRef) {
    match ref
    case ExternalRef(id) => id in dfg.externals
    case ConstantRef(id) => id in dfg.constants
  }

  // One boundary value for each iteration before the producer's first, and none on edges within an iteration.
  predicate BoundaryComplete(dfg: Dfg, edge: Edge) {
    match edge.info
    case MemoryEdge(_) => true
    case _ =>
      if edge.distance == 0 then edge.info.boundary.None?
      else
        edge.info.boundary.Some? &&
        var values := edge.info.boundary.value;
        && |values| == edge.distance
        && (forall j :: 0 <= j < |values| ==> values[j].offset < edge.distance && Known(dfg, values[j].value))
        && (forall j, k :: 0 <= j < k < |values| ==> values[j].offset != values[k].offset)
  }

  predicate IdsFit(dfg: Dfg) {
    && (forall n :: n in dfg.nodes ==> n < ID_VALUES) && (forall e :: e in dfg.edges ==> e < ID_VALUES)
    && (forall c :: c in dfg.constants ==> c < ID_VALUES)
  }

  /** What the verifier of graphs asks for, as far as the meaning of a graph depends on it. */
  predicate WellFormed(dfg: Dfg) {
    && (forall e :: e in dfg.edges ==> dfg.edges[e].src in dfg.nodes && dfg.edges[e].dst in dfg.nodes)
    && (forall e :: e in dfg.edges ==> BoundaryComplete(dfg, dfg.edges[e]))
    && (forall b :: b in dfg.bindings ==> b.0 in dfg.nodes && b.1 < |dfg.nodes[b.0].operandTypes|)
    && (forall b :: b in dfg.bindings ==> Known(dfg, dfg.bindings[b]))
    && (forall l :: l in dfg.liveOuts ==> dfg.liveOuts[l].source in dfg.nodes)
    && OneProvider(dfg)
  }

  // No operand has two providers.
  predicate OneProvider(dfg: Dfg) {
    && (forall e, f :: e in dfg.edges && f in dfg.edges && e != f && !dfg.edges[e].info.MemoryEdge? ==>
          !Feeds(dfg.edges[f], dfg.edges[e].dst, dfg.edges[e].info.operand))
    && (forall e, b :: e in dfg.edges && b in dfg.bindings ==> !Feeds(dfg.edges[e], b.0, b.1))
  }

  // ----- Meaning -----

  /** The invocation's scalars, and what the operations of the graph compute. */
  datatype Environment = Environment(scalars: map<nat, nat>, compute: (Opcode, seq<nat>) -> nat)

  function RefValue(dfg: Dfg, env: Environment, ref: ValueRef): nat {
    match ref
    case ExternalRef(id) => if id in env.scalars then env.scalars[id] else 0
    case ConstantRef(id) => if id in dfg.constants then dfg.constants[id].bits else 0
  }

  // The boundary value for an iteration.
  function BoundaryRef(values: seq<BoundaryValue>, iteration: nat): Option<ValueRef> {
    if values == [] then None
    else if values[0].offset == iteration then Some(values[0].value)
    else BoundaryRef(values[1..], iteration)
  }

  /** A run under way: values of finished iterations, values of this one so far, and the scratchpad. */
  datatype Machine = Machine(past: seq<map<nat, nat>>, now: map<nat, nat>, memory: seq<nat>)

  function At(values: map<nat, nat>, node: nat): nat {
    if node in values then values[node] else 0
  }

  // What an edge brings: a value of this or an earlier iteration, or a boundary value where there was none.
  function EdgeValue(dfg: Dfg, env: Environment, m: Machine, edge: Edge): nat {
    var iteration := |m.past|;
    if edge.distance == 0 then At(m.now, edge.src)
    else if edge.distance <= iteration then At(m.past[iteration - edge.distance], edge.src)
    else if edge.info.MemoryEdge? || edge.info.boundary.None? then 0
    else
      var ref := BoundaryRef(edge.info.boundary.value, iteration);
      if ref.Some? then RefValue(dfg, env, ref.value) else 0
  }

  ghost function OperandValue(dfg: Dfg, env: Environment, m: Machine, node: nat, operand: nat): nat {
    if (node, operand) in dfg.bindings then RefValue(dfg, env, dfg.bindings[(node, operand)])
    else if e :| e in dfg.edges && Feeds(dfg.edges[e], node, operand) then EdgeValue(dfg, env, m, dfg.edges[e])
    else 0
  }

  ghost function Operands(dfg: Dfg, env: Environment, m: Machine, node: nat): (values: seq<nat>)
    requires node in dfg.nodes
    ensures |values| == |dfg.nodes[node].operandTypes|
  {
    seq(|dfg.nodes[node].operandTypes|, k requires 0 <= k < |dfg.nodes[node].operandTypes| =>
      OperandValue(dfg, env, m, node, k))
  }

  function LoadWord(memory: seq<nat>, address: nat): nat {
    if address < |memory| then memory[address] else 0
  }

  function StoreWord(memory: seq<nat>, address: nat, word: nat): seq<nat> {
    if address < |memory| then memory[address := word] else memory
  }

  // The address a memory operation accesses; a store whose predicate is false accesses none.
  function Accessed(node: Node, operands: seq<nat>): Option<nat> {
    match node.opcode
    case Load => if |operands| >= 1 then Some(operands[0]) else None
    case Store => if |operands| >= 2 && (|operands| < 3 || operands[2] != 0) then Some(operands[0]) else None
    case _ => None
  }

  // The node fires: results are remembered, stores change the scratchpad.
  function Fire(env: Environment, m: Machine, id: nat, node: Node, operands: seq<nat>): Machine {
    var address := Accessed(node, operands);
    match node.opcode
    case Load => m.(now := m.now[id := if address.Some? then LoadWord(m.memory, address.value) else 0])
    case Store =>
      if address.Some? && |operands| >= 2 then m.(memory := StoreWord(m.memory, address.value, operands[1])) else m
    case _ => m.(now := m.now[id := env.compute(node.opcode, operands)])
  }

  ghost function Issue(dfg: Dfg, env: Environment, m: Machine, id: nat): Machine {
    if id in dfg.nodes then Fire(env, m, id, dfg.nodes[id], Operands(dfg, env, m, id)) else m
  }

  ghost function IssueAll(dfg: Dfg, env: Environment, m: Machine, order: seq<nat>): Machine {
    if order == [] then m
    else Issue(dfg, env, IssueAll(dfg, env, m, order[..|order| - 1]), order[|order| - 1])
  }

  function NextIteration(m: Machine): Machine {
    Machine(m.past + [m.now], map[], m.memory)
  }

  /** The kernel after so many iterations, its nodes issued in the given order in each. */
  ghost function Run(dfg: Dfg, env: Environment, order: seq<nat>, memory: seq<nat>, iterations: nat): Machine {
    if iterations == 0 then Machine([], map[], memory)
    else NextIteration(IssueAll(dfg, env, Run(dfg, env, order, memory, iterations - 1), order))
  }

  // ----- Accesses -----

  ghost predicate Avoids(dfg: Dfg, env: Environment, m: Machine, id: nat, base: nat, depth: nat) {
    id in dfg.nodes ==>
      var address := Accessed(dfg.nodes[id], Operands(dfg, env, m, id));
      address.Some? ==> !(base <= address.value < depth)
  }

  ghost predicate AvoidsAll(dfg: Dfg, env: Environment, m: Machine, order: seq<nat>, base: nat, depth: nat) {
    order != [] ==>
      var n := |order| - 1;
      AvoidsAll(dfg, env, m, order[..n], base, depth) &&
      Avoids(dfg, env, IssueAll(dfg, env, m, order[..n]), order[n], base, depth)
  }

  /** No memory operation of the run touches the words from base up to depth. */
  ghost predicate RunAvoids(dfg: Dfg, env: Environment, order: seq<nat>, memory: seq<nat>, iterations: nat, base: nat,
                            depth: nat)
  {
    iterations > 0 ==>
      RunAvoids(dfg, env, order, memory, iterations - 1, base, depth) &&
      AvoidsAll(dfg, env, Run(dfg, env, order, memory, iterations - 1), order, base, depth)
  }
}
