// Which kernels stay out of the output region.

module KernelRuns {
  import opened Wrappers
  import opened Kernels
  import opened KernelMeaning
  import opened KernelBinding
  import opened KernelInvocation

  /** Every memory operation has its address bound, to a constant or to an external value. */
  ghost predicate StaticAddresses(source: Dfg) {
    forall n :: n in source.nodes && IsMemory(source.nodes[n]) ==> (n, 0) in source.bindings
  }

  // A memory operation with a bound address stays out of the region, in the source as in the bound graph.
  lemma BoundAddressAvoids(source: Dfg, bound: Dfg, env: Environment, layout: KernelLayout, m: Machine, n: nat)
    requires WellFormed(source) && Specialises(source, bound, env.scalars, layout) && Unlabelled(source)
    requires n in source.nodes && IsMemory(source.nodes[n]) && (n, 0) in source.bindings
    requires ConstantAddressesClear(bound, layout.outputBase, layout.depth)
    ensures Avoids(source, env, m, n, layout.outputBase, layout.depth)
    ensures Avoids(bound, env, m, n, layout.outputBase, layout.depth)
  {
    hide Operands, OutputsLaidOut, OutputStored, OneProvider, BoundaryComplete, RewriteEdge;
    var ref := source.bindings[(n, 0)];
    FirstOperand(source, env, m, n);
    FirstOperand(bound, env, m, n);
    SameRef(source, bound, env, layout.inputs, ref);
    assert bound.bindings[(n, 0)] == RewriteRef(ref, layout.inputs);
  }

  lemma StaticAvoids(source: Dfg, bound: Dfg, env: Environment, layout: KernelLayout, m: Machine, n: nat)
    requires WellFormed(source) && Specialises(source, bound, env.scalars, layout) && Unlabelled(source)
    requires StaticAddresses(source) && ConstantAddressesClear(bound, layout.outputBase, layout.depth)
    ensures Avoids(source, env, m, n, layout.outputBase, layout.depth)
  {
    hide Operands, WellFormed, Specialises, Unlabelled, ConstantAddressesClear;
    if n in source.nodes && IsMemory(source.nodes[n]) {
      BoundAddressAvoids(source, bound, env, layout, m, n);
    }
  }

  lemma FirstOperand(source: Dfg, env: Environment, m: Machine, n: nat)
    requires n in source.nodes && (n, 0) in source.bindings
    ensures |Operands(source, env, m, n)| > 0 ==>
      Operands(source, env, m, n)[0] == RefValue(source, env, source.bindings[(n, 0)])
  {
  }

  lemma {:induction false} StaticAvoidsAll(source: Dfg, bound: Dfg, env: Environment, layout: KernelLayout, m: Machine,
                                           order: seq<nat>)
    requires WellFormed(source) && Specialises(source, bound, env.scalars, layout) && Unlabelled(source)
    requires StaticAddresses(source) && ConstantAddressesClear(bound, layout.outputBase, layout.depth)
    ensures AvoidsAll(source, env, m, order, layout.outputBase, layout.depth)
  {
    hide WellFormed, Specialises, Unlabelled, StaticAddresses, ConstantAddressesClear, Avoids;
    if order != [] {
      var init := order[..|order| - 1];
      StaticAvoidsAll(source, bound, env, layout, m, init);
      StaticAvoids(source, bound, env, layout, IssueAll(source, env, m, init), order[|order| - 1]);
    }
  }

  /** A bound kernel whose addresses are all known when it is bound never touches the output region. */
  lemma {:induction false} StaticRunAvoids(source: Dfg, bound: Dfg, env: Environment, layout: KernelLayout, order: seq<nat>,
                                           memory: seq<nat>, iterations: nat)
    requires WellFormed(source) && Specialises(source, bound, env.scalars, layout) && Unlabelled(source)
    requires StaticAddresses(source) && ConstantAddressesClear(bound, layout.outputBase, layout.depth)
    ensures RunAvoids(source, env, order, memory, iterations, layout.outputBase, layout.depth)
  {
    hide WellFormed, Specialises, Unlabelled, StaticAddresses, ConstantAddressesClear, AvoidsAll;
    if iterations > 0 {
      StaticRunAvoids(source, bound, env, layout, order, memory, iterations - 1);
      StaticAvoidsAll(source, bound, env, layout, Run(source, env, order, memory, iterations - 1), order);
    }
  }

  /** So such a kernel means the same once bound, whatever its operations compute and for however long it runs. */
  lemma StaticMeaningPreserved(source: Dfg, bound: Dfg, env: Environment, layout: KernelLayout, order: seq<nat>,
                               memory: seq<nat>, iterations: nat)
    requires WellFormed(source) && Specialises(source, bound, env.scalars, layout) && Unlabelled(source)
    requires StaticAddresses(source) && ConstantAddressesClear(bound, layout.outputBase, layout.depth)
    requires |memory| == layout.depth && Orderly(source, layout, order)
    requires forall j :: 0 <= j < |layout.outputs| ==> layout.outputs[j].store in order
    ensures Agree(layout, Run(source, env, Originals(order, source), memory, iterations),
                  Run(bound, env, order, memory, iterations))
    ensures OutputsHold(source, layout, Run(bound, env, order, memory, iterations))
  {
    StaticRunAvoids(source, bound, env, layout, Originals(order, source), memory, iterations);
    MeaningPreserved(source, bound, env, layout, order, memory, iterations);
  }
}
