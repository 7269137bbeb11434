// A kernel specialised to one invocation, and why it still means the same.

module KernelMeaning {
  import opened Wrappers
  import opened Kernels

  /** Where an output goes: its live-out, its word, and the store and the address constant made for it. */
  datatype OutputBinding = OutputBinding(output: nat, address: nat, store: nat, addressConstant: nat)

  datatype KernelLayout = KernelLayout(depth: nat, outputBase: nat, inputs: map<nat, nat>, outputs: seq<OutputBinding>)

  // ----- Rewriting -----

  // External values become the constants made for them.
  function RewriteRef(ref: ValueRef, specialized: map<nat, nat>): ValueRef {
    if ref.ExternalRef? && ref.id in specialized then ConstantRef(specialized[ref.id]) else ref
  }

  function RewriteBoundary(values: seq<BoundaryValue>, specialized: map<nat, nat>): (rewritten: seq<BoundaryValue>)
    ensures |rewritten| == |values|
  {
    seq(|values|, j requires 0 <= j < |values| =>
      BoundaryValue(values[j].offset, RewriteRef(values[j].value, specialized)))
  }

  function RewriteEdge(edge: Edge, specialized: map<nat, nat>): Edge {
    if edge.info.MemoryEdge? || edge.info.boundary.None? then edge
    else edge.(info := edge.info.(boundary := Some(RewriteBoundary(edge.info.boundary.value, specialized))))
  }

  // ----- What specialising a kernel means -----

  // The original values are there, and every external value has a constant with its bits.
  ghost predicate ValuesKept(source: Dfg, bound: Dfg, scalars: map<nat, nat>, specialized: map<nat, nat>) {
    && (forall n :: n in source.nodes ==> n in bound.nodes && bound.nodes[n] == source.nodes[n])
    && (forall c :: c in source.constants ==> c in bound.constants && bound.constants[c] == source.constants[c])
    && source.externals.Keys <= specialized.Keys
    && (forall x :: x in source.externals ==>
          x in scalars && specialized[x] in bound.constants && bound.constants[specialized[x]].bits == scalars[x])
  }

  // Original operands keep their providers, up to the rewriting.
  ghost predicate ProvidersKept(source: Dfg, bound: Dfg, specialized: map<nat, nat>) {
    && (forall b :: b in source.bindings ==>
          b in bound.bindings && bound.bindings[b] == RewriteRef(source.bindings[b], specialized))
    && (forall b :: b in bound.bindings && b.0 in source.nodes ==> b in source.bindings)
    && (forall e :: e in source.edges ==>
          e in bound.edges && bound.edges[e] == RewriteEdge(source.edges[e], specialized))
    && (forall e :: e in bound.edges && e !in source.edges ==> bound.edges[e].dst !in source.nodes)
  }

  // The store of an output: a new node that puts the live-out's value into the output's word.
  ghost predicate OutputStored(source: Dfg, bound: Dfg, output: OutputBinding) {
    && output.output in source.liveOuts
    && output.store !in source.nodes && output.store in bound.nodes
    && bound.nodes[output.store].opcode == Store && |bound.nodes[output.store].operandTypes| == 2
    && (output.store, 0) in bound.bindings && (output.store, 1) !in bound.bindings
    && bound.bindings[(output.store, 0)] == ConstantRef(output.addressConstant)
    && output.addressConstant in bound.constants && bound.constants[output.addressConstant].bits == output.address
    && (exists e :: e in bound.edges && Feeds(bound.edges[e], output.store, 1))
    && (forall e :: e in bound.edges && Feeds(bound.edges[e], output.store, 1) ==>
          bound.edges[e].src == source.liveOuts[output.output].source && bound.edges[e].distance == 0)
  }

  // One word for each live-out, in the order of their IDs, at the top of the scratchpad.
  ghost predicate OutputsLaidOut(source: Dfg, layout: KernelLayout) {
    && layout.outputBase + |layout.outputs| == layout.depth
    && (forall j :: 0 <= j < |layout.outputs| ==> layout.outputs[j].address == layout.outputBase + j)
    && (forall j, k :: 0 <= j < k < |layout.outputs| ==> layout.outputs[j].output < layout.outputs[k].output)
    && (forall l :: l in source.liveOuts <==> exists j :: 0 <= j < |layout.outputs| && layout.outputs[j].output == l)
    && (forall j, k :: 0 <= j < k < |layout.outputs| ==> layout.outputs[j].store != layout.outputs[k].store)
  }

  /** The bound graph is the source for one invocation, with a store for each of its live-outs. */
  ghost predicate Specialises(source: Dfg, bound: Dfg, scalars: map<nat, nat>, layout: KernelLayout) {
    && ValuesKept(source, bound, scalars, layout.inputs)
    && ProvidersKept(source, bound, layout.inputs)
    && OutputsLaidOut(source, layout)
    && (forall j :: 0 <= j < |layout.outputs| ==> OutputStored(source, bound, layout.outputs[j]))
  }

  // ----- Operands keep their values -----

  lemma SameRef(source: Dfg, bound: Dfg, env: Environment, specialized: map<nat, nat>, ref: ValueRef)
    requires ValuesKept(source, bound, env.scalars, specialized) && Known(source, ref)
    ensures RefValue(bound, env, RewriteRef(ref, specialized)) == RefValue(source, env, ref)
  {
  }

  lemma {:induction false} SameBoundary(values: seq<BoundaryValue>, specialized: map<nat, nat>, iteration: nat)
    ensures BoundaryRef(RewriteBoundary(values, specialized), iteration) ==
      match BoundaryRef(values, iteration)
      case None => None
      case Some(ref) => Some(RewriteRef(ref, specialized))
  {
    if values != [] {
      SameBoundary(values[1..], specialized, iteration);
      assert RewriteBoundary(values, specialized)[1..] == RewriteBoundary(values[1..], specialized);
    }
  }

  lemma {:induction false} BoundaryKnown(dfg: Dfg, values: seq<BoundaryValue>, iteration: nat)
    requires forall j :: 0 <= j < |values| ==> Known(dfg, values[j].value)
    ensures BoundaryRef(values, iteration).Some? ==> Known(dfg, BoundaryRef(values, iteration).value)
  {
    if values != [] {
      BoundaryKnown(dfg, values[1..], iteration);
    }
  }

  // Both machines have computed the same values so far.
  ghost predicate SameValues(a: Machine, b: Machine) {
    a.past == b.past && a.now == b.now
  }

  lemma SameEdgeValue(source: Dfg, bound: Dfg, env: Environment, specialized: map<nat, nat>, a: Machine, b: Machine,
                      edge: Edge)
    requires ValuesKept(source, bound, env.scalars, specialized) && SameValues(a, b) && BoundaryComplete(source, edge)
    ensures EdgeValue(bound, env, b, RewriteEdge(edge, specialized)) == EdgeValue(source, env, a, edge)
  {
    hide ValuesKept, RefValue;
    if edge.distance > |a.past| && !edge.info.MemoryEdge? {
      var values := edge.info.boundary.value;
      SameBoundary(values, specialized, |a.past|);
      BoundaryKnown(source, values, |a.past|);
      if BoundaryRef(values, |a.past|).Some? {
        SameRef(source, bound, env, specialized, BoundaryRef(values, |a.past|).value);
      }
    }
  }

  // The providing edge of an operand is the same edge in both graphs.
  lemma SameFeeds(source: Dfg, bound: Dfg, specialized: map<nat, nat>, n: nat, k: nat, e: nat)
    requires ProvidersKept(source, bound, specialized) && n in source.nodes
    ensures e in bound.edges && Feeds(bound.edges[e], n, k) <==> e in source.edges && Feeds(source.edges[e], n, k)
  {
  }

  lemma OneFeeds(dfg: Dfg, n: nat, k: nat, e: nat, f: nat)
    requires WellFormed(dfg) && e in dfg.edges && f in dfg.edges
    requires Feeds(dfg.edges[e], n, k) && Feeds(dfg.edges[f], n, k)
    ensures e == f
  {
  }

  lemma SameOperand(source: Dfg, bound: Dfg, env: Environment, layout: KernelLayout, a: Machine, b: Machine, n: nat, k: nat)
    requires WellFormed(source) && Specialises(source, bound, env.scalars, layout) && SameValues(a, b) && n in source.nodes
    ensures OperandValue(bound, env, b, n, k) == OperandValue(source, env, a, n, k)
  {
    hide ValuesKept, EdgeValue, RefValue, RewriteEdge, RewriteRef, Feeds, OutputsLaidOut, OutputStored, BoundaryComplete, SameValues,
         OneProvider, WellFormed;
    WellFormedParts(source);
    if (n, k) in source.bindings {
      SameRef(source, bound, env, layout.inputs, source.bindings[(n, k)]);
    } else {
      assert (n, k) !in bound.bindings;
      forall e
        ensures e in bound.edges && Feeds(bound.edges[e], n, k) <==> e in source.edges && Feeds(source.edges[e], n, k)
      {
        SameFeeds(source, bound, layout.inputs, n, k, e);
      }
      if e :| e in source.edges && Feeds(source.edges[e], n, k) {
        forall f | f in source.edges && Feeds(source.edges[f], n, k)
          ensures f == e
        {
          OneFeeds(source, n, k, e, f);
        }
        SameEdgeValue(source, bound, env, layout.inputs, a, b, source.edges[e]);
      }
    }
  }

  lemma WellFormedParts(dfg: Dfg)
    requires WellFormed(dfg)
    ensures forall e :: e in dfg.edges ==> BoundaryComplete(dfg, dfg.edges[e])
    ensures forall b :: b in dfg.bindings ==> Known(dfg, dfg.bindings[b])
    ensures forall l :: l in dfg.liveOuts ==> dfg.liveOuts[l].source in dfg.nodes
  {
  }

  lemma SameOperands(source: Dfg, bound: Dfg, env: Environment, layout: KernelLayout, a: Machine, b: Machine, n: nat)
    requires WellFormed(source) && Specialises(source, bound, env.scalars, layout) && SameValues(a, b) && n in source.nodes
    ensures n in bound.nodes && bound.nodes[n] == source.nodes[n]
    ensures Operands(bound, env, b, n) == Operands(source, env, a, n)
  {
    hide WellFormed, ProvidersKept, OutputsLaidOut, OutputStored, OperandValue, SameValues;
    NodeKept(source, bound, env.scalars, layout.inputs, n);
    hide ValuesKept, Specialises;
    forall k: nat | k < |source.nodes[n].operandTypes|
      ensures OperandValue(bound, env, b, n, k) == OperandValue(source, env, a, n, k)
    {
      SameOperand(source, bound, env, layout, a, b, n, k);
    }
  }

  lemma NodeKept(source: Dfg, bound: Dfg, scalars: map<nat, nat>, specialized: map<nat, nat>, n: nat)
    requires ValuesKept(source, bound, scalars, specialized) && n in source.nodes
    ensures n in bound.nodes && bound.nodes[n] == source.nodes[n]
  {
  }

  // ----- Runs keep their values -----

  // Equal values, and equal words outside the output region.
  ghost predicate Agree(layout: KernelLayout, a: Machine, b: Machine) {
    && SameValues(a, b) && |a.memory| == |b.memory| == layout.depth
    && forall x :: 0 <= x < |a.memory| && !(layout.outputBase <= x < layout.depth) ==> a.memory[x] == b.memory[x]
  }

  lemma FireAgrees(env: Environment, layout: KernelLayout, a: Machine, b: Machine, id: nat, node: Node, operands: seq<nat>)
    requires Agree(layout, a, b)
    requires var address := Accessed(node, operands); address.Some? ==> !(layout.outputBase <= address.value < layout.depth)
    ensures Agree(layout, Fire(env, a, id, node, operands), Fire(env, b, id, node, operands))
    ensures forall x :: layout.outputBase <= x < layout.depth ==> Fire(env, b, id, node, operands).memory[x] == b.memory[x]
    ensures forall n :: n != id ==> At(Fire(env, b, id, node, operands).now, n) == At(b.now, n)
  {
  }

  lemma OriginalAgrees(source: Dfg, bound: Dfg, env: Environment, layout: KernelLayout, a: Machine, b: Machine, n: nat)
    requires WellFormed(source) && Specialises(source, bound, env.scalars, layout) && n in source.nodes
    requires Agree(layout, a, b) && Avoids(source, env, a, n, layout.outputBase, layout.depth)
    ensures Agree(layout, Issue(source, env, a, n), Issue(bound, env, b, n))
    ensures forall x :: layout.outputBase <= x < layout.depth ==> Issue(bound, env, b, n).memory[x] == b.memory[x]
    ensures forall k :: k != n ==> At(Issue(bound, env, b, n).now, k) == At(b.now, k)
  {
    hide WellFormed, Specialises, Fire, Operands, Accessed, At;
    SameOperands(source, bound, env, layout, a, b, n);
    FireAgrees(env, layout, a, b, n, source.nodes[n], Operands(source, env, a, n));
  }

  // The node whose value an output carries.
  ghost function SourceOf(source: Dfg, layout: KernelLayout, j: nat): nat
    requires j < |layout.outputs|
  {
    if layout.outputs[j].output in source.liveOuts then source.liveOuts[layout.outputs[j].output].source else 0
  }

  // The store of an output writes the live-out's present value into its word.
  lemma StoreFires(source: Dfg, bound: Dfg, env: Environment, layout: KernelLayout, b: Machine, j: nat)
    requires j < |layout.outputs| && OutputStored(source, bound, layout.outputs[j])
    ensures var output := layout.outputs[j];
      Issue(bound, env, b, output.store) ==
      b.(memory := StoreWord(b.memory, output.address, At(b.now, SourceOf(source, layout, j))))
  {
    var output := layout.outputs[j];
    var operands := Operands(bound, env, b, output.store);
    assert operands[0] == output.address;
    assert operands[1] == At(b.now, source.liveOuts[output.output].source) by {
      hide StoreWord, Fire, Accessed;
      var e :| e in bound.edges && Feeds(bound.edges[e], output.store, 1);
    }
  }

  function Originals(order: seq<nat>, source: Dfg): seq<nat> {
    if order == [] then []
    else
      var rest := Originals(order[..|order| - 1], source);
      if order[|order| - 1] in source.nodes then rest + [order[|order| - 1]] else rest
  }

  ghost predicate StoreOf(layout: KernelLayout, n: nat) {
    exists j :: 0 <= j < |layout.outputs| && layout.outputs[j].store == n
  }

  /** An order for the bound graph: each node once, every store after the node it stores. */
  ghost predicate Orderly(source: Dfg, layout: KernelLayout, order: seq<nat>) {
    && (forall p, q :: 0 <= p < q < |order| ==> order[p] != order[q])
    && (forall p :: 0 <= p < |order| ==> order[p] in source.nodes || StoreOf(layout, order[p]))
    && (forall j: nat, q :: j < |layout.outputs| && 0 <= q < |order| && order[q] == layout.outputs[j].store ==>
          SourceOf(source, layout, j) in order[..q])
  }

  lemma OrderlyInit(source: Dfg, layout: KernelLayout, order: seq<nat>)
    requires Orderly(source, layout, order) && order != []
    ensures Orderly(source, layout, order[..|order| - 1])
  {
    hide StoreOf, SourceOf;
    var init := order[..|order| - 1];
    forall j: nat, q | j < |layout.outputs| && 0 <= q < |init| && init[q] == layout.outputs[j].store
      ensures SourceOf(source, layout, j) in init[..q]
    {
      assert order[..q] == init[..q] && order[q] == init[q];
    }
  }

  // The words of outputs already stored in this iteration hold their live-outs' values.
  ghost predicate Stored(source: Dfg, layout: KernelLayout, b: Machine, order: seq<nat>) {
    forall j: nat :: j < |layout.outputs| && layout.outputs[j].store in order ==>
      layout.outputs[j].address < |b.memory| &&
      b.memory[layout.outputs[j].address] == At(b.now, SourceOf(source, layout, j))
  }

  lemma StoredAfterOriginal(source: Dfg, layout: KernelLayout, order: seq<nat>, b: Machine, b': Machine)
    requires order != [] && Orderly(source, layout, order) && OutputsLaidOut(source, layout) && |b.memory| == |b'.memory|
    requires order[|order| - 1] in source.nodes && !StoreOf(layout, order[|order| - 1])
    requires Stored(source, layout, b, order[..|order| - 1])
    requires forall x :: layout.outputBase <= x < layout.depth && x < |b.memory| ==> b'.memory[x] == b.memory[x]
    requires forall k :: k != order[|order| - 1] ==> At(b'.now, k) == At(b.now, k)
    ensures Stored(source, layout, b', order)
  {
    hide At, SourceOf;
    var n := |order| - 1;
    forall j: nat | j < |layout.outputs| && layout.outputs[j].store in order
      ensures layout.outputs[j].address < |b'.memory| &&
              b'.memory[layout.outputs[j].address] == At(b'.now, SourceOf(source, layout, j))
    {
      var q :| 0 <= q < |order| && order[q] == layout.outputs[j].store;
      assert StoreOf(layout, order[q]);
      assert q < n && order[q] == order[..n][q];
      assert SourceOf(source, layout, j) in order[..q];
    }
  }

  lemma StoredAfterStore(source: Dfg, layout: KernelLayout, order: seq<nat>, b: Machine, j: nat)
    requires order != [] && OutputsLaidOut(source, layout) && |b.memory| == layout.depth
    requires j < |layout.outputs| && order[|order| - 1] == layout.outputs[j].store
    requires Stored(source, layout, b, order[..|order| - 1])
    ensures Stored(source, layout,
                   b.(memory := StoreWord(b.memory, layout.outputs[j].address, At(b.now, SourceOf(source, layout, j)))), order)
  {
    hide At, SourceOf;
    assert order == order[..|order| - 1] + [order[|order| - 1]];
  }

  /** Within an iteration: the same values as the source, and the outputs stored. */
  lemma {:induction false} IterationAgrees(source: Dfg, bound: Dfg, env: Environment, layout: KernelLayout, a: Machine,
                                           b: Machine, order: seq<nat>)
    requires WellFormed(source) && Specialises(source, bound, env.scalars, layout) && Orderly(source, layout, order)
    requires Agree(layout, a, b) && AvoidsAll(source, env, a, Originals(order, source), layout.outputBase, layout.depth)
    ensures Agree(layout, IssueAll(source, env, a, Originals(order, source)), IssueAll(bound, env, b, order))
    ensures Stored(source, layout, IssueAll(bound, env, b, order), order)
  {
    hide WellFormed, Issue, Avoids, Agree, Orderly, OutputStored, ValuesKept, ProvidersKept, OutputsLaidOut, StoreOf;
    if order == [] {
      NothingStored(source, layout, b);
    } else {
      var init, n := order[..|order| - 1], order[|order| - 1];
      OrderlyInit(source, layout, order);
      OriginalsAvoid(source, env, a, order, layout);
      IterationAgrees(source, bound, env, layout, a, b, init);
      var a0, b0 := IssueAll(source, env, a, Originals(init, source)), IssueAll(bound, env, b, init);
      if n in source.nodes {
        NotBothKinds(source, bound, env, layout, n);
        OriginalAgrees(source, bound, env, layout, a0, b0, n);
        MemorySized(layout, a0, b0);
        MemorySized(layout, Issue(source, env, a0, n), Issue(bound, env, b0, n));
        StoredAfterOriginal(source, layout, order, b0, Issue(bound, env, b0, n));
      } else {
        var j := StoreIndex(source, layout, order);
        StoreFires(source, bound, env, layout, b0, j);
        MemorySized(layout, a0, b0);
        StoredAfterStore(source, layout, order, b0, j);
        StoreAgrees(source, layout, a0, b0, j);
      }
    }
  }

  lemma NothingStored(source: Dfg, layout: KernelLayout, b: Machine)
    ensures Stored(source, layout, b, [])
  {
  }

  // Skipping a store leaves the original order; keeping an original node extends it.
  lemma OriginalsAvoid(source: Dfg, env: Environment, a: Machine, order: seq<nat>, layout: KernelLayout)
    requires order != [] && AvoidsAll(source, env, a, Originals(order, source), layout.outputBase, layout.depth)
    ensures var (init, n) := (order[..|order| - 1], order[|order| - 1]);
      && AvoidsAll(source, env, a, Originals(init, source), layout.outputBase, layout.depth)
      && (n in source.nodes ==>
            Avoids(source, env, IssueAll(source, env, a, Originals(init, source)), n, layout.outputBase, layout.depth) &&
            IssueAll(source, env, a, Originals(order, source)) ==
            Issue(source, env, IssueAll(source, env, a, Originals(init, source)), n))
      && (n !in source.nodes ==> Originals(order, source) == Originals(init, source))
  {
    hide Avoids, Issue;
    var init, n := order[..|order| - 1], order[|order| - 1];
    if n in source.nodes {
      var all := Originals(order, source);
      assert all == Originals(init, source) + [n];
      assert all[..|all| - 1] == Originals(init, source);
    }
  }

  lemma NotBothKinds(source: Dfg, bound: Dfg, env: Environment, layout: KernelLayout, n: nat)
    requires Specialises(source, bound, env.scalars, layout) && n in source.nodes
    ensures !StoreOf(layout, n)
  {
  }

  lemma MemorySized(layout: KernelLayout, a: Machine, b: Machine)
    requires Agree(layout, a, b)
    ensures |a.memory| == |b.memory| == layout.depth
  {
  }

  lemma StoreIndex(source: Dfg, layout: KernelLayout, order: seq<nat>) returns (j: nat)
    requires order != [] && Orderly(source, layout, order) && order[|order| - 1] !in source.nodes
    ensures j < |layout.outputs| && layout.outputs[j].store == order[|order| - 1]
  {
    assert StoreOf(layout, order[|order| - 1]);
    j :| 0 <= j < |layout.outputs| && layout.outputs[j].store == order[|order| - 1];
  }

  lemma StoreAgrees(source: Dfg, layout: KernelLayout, a: Machine, b: Machine, j: nat)
    requires Agree(layout, a, b) && j < |layout.outputs| && OutputsLaidOut(source, layout)
    ensures Agree(layout, a,
                  b.(memory := StoreWord(b.memory, layout.outputs[j].address, At(b.now, SourceOf(source, layout, j)))))
  {
    hide At, SourceOf;
  }

  // After the last iteration every output's word holds its live-out's value of that iteration.
  ghost predicate OutputsHold(source: Dfg, layout: KernelLayout, b: Machine) {
    |b.past| > 0 ==>
      forall j: nat :: j < |layout.outputs| ==>
        layout.outputs[j].address < |b.memory| &&
        b.memory[layout.outputs[j].address] == At(b.past[|b.past| - 1], SourceOf(source, layout, j))
  }

  /**
   * Whatever the operations compute, the bound kernel computes the source's values in every iteration and leaves each
   * live-out's last value in its word, as long as the source's memory operations stay out of the output region.
   */
  lemma {:induction false} MeaningPreserved(source: Dfg, bound: Dfg, env: Environment, layout: KernelLayout, order: seq<nat>,
                                            memory: seq<nat>, iterations: nat)
    requires WellFormed(source) && Specialises(source, bound, env.scalars, layout) && |memory| == layout.depth
    requires Orderly(source, layout, order) && forall j :: 0 <= j < |layout.outputs| ==> layout.outputs[j].store in order
    requires RunAvoids(source, env, Originals(order, source), memory, iterations, layout.outputBase, layout.depth)
    ensures Agree(layout, Run(source, env, Originals(order, source), memory, iterations),
                  Run(bound, env, order, memory, iterations))
    ensures OutputsHold(source, layout, Run(bound, env, order, memory, iterations))
  {
    hide WellFormed, Specialises, Orderly, AvoidsAll, IssueAll, SourceOf, At, Originals;
    if iterations > 0 {
      MeaningPreserved(source, bound, env, layout, order, memory, iterations - 1);
      var a := Run(source, env, Originals(order, source), memory, iterations - 1);
      var b := Run(bound, env, order, memory, iterations - 1);
      NowEmpty(source, env, Originals(order, source), memory, iterations - 1);
      NowEmpty(bound, env, order, memory, iterations - 1);
      IterationAgrees(source, bound, env, layout, a, b, order);
    }
  }

  lemma NowEmpty(dfg: Dfg, env: Environment, order: seq<nat>, memory: seq<nat>, iterations: nat)
    ensures Run(dfg, env, order, memory, iterations).now == map[]
  {
  }
}
