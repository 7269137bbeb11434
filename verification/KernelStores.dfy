// Where a store with a computed address overwrites an output of the bound kernel.

module KernelStores {
  import opened Wrappers
  import opened Kernels
  import opened KernelMeaning
  import opened KernelBinding
  import opened KernelInvocation
  import opened KernelRuns
  import opened KernelEscapes

  // The word a bound operand gives.
  ghost function BoundWord(source: Dfg, scalars: map<nat, nat>, n: nat, operand: nat): nat {
    if (n, operand) in source.bindings then RefValue(source, Always(scalars, 0), source.bindings[(n, operand)]) else 0
  }

  /** A store with a computed address and a bound word, behind output j and the last in `order` with such an address. */
  ghost predicate Overwrites(source: Dfg, scalars: map<nat, nat>, layout: KernelLayout, n: nat, after: seq<nat>, j: nat) {
    && n in source.nodes && source.nodes[n].opcode == Store && |source.nodes[n].operandTypes| == 2
    && (n, 0) !in source.bindings && (n, 1) in source.bindings && AddressComputed(source, n)
    && j < |layout.outputs| && layout.outputs[j].store !in after
    && SourceOf(source, layout, j) in source.nodes && !IsMemory(source.nodes[SourceOf(source, layout, j)])
    && BoundWord(source, scalars, n, 1) != layout.outputs[j].address
    && forall p :: p in after && p in source.nodes && source.nodes[p].opcode == Store ==> (p, 0) in source.bindings
  }

  // The one edge that brings the store's address.
  lemma StoreEdge(source: Dfg, bound: Dfg, scalars: map<nat, nat>, layout: KernelLayout, n: nat) returns (e: nat)
    requires WellFormed(source) && Specialises(source, bound, scalars, layout)
    requires n in source.nodes && (n, 0) !in source.bindings && AddressComputed(source, n)
    ensures e in source.edges && source.edges[e].dst == n && !source.edges[e].info.MemoryEdge?
    ensures e in bound.edges && Feeds(bound.edges[e], n, 0) && bound.edges[e].distance == source.edges[e].distance
    ensures bound.edges[e].src == source.edges[e].src && source.edges[e].src in source.nodes
    ensures !IsMemory(source.nodes[source.edges[e].src])
    ensures forall f :: f in bound.edges && Feeds(bound.edges[f], n, 0) ==> f == e
    ensures (n, 0) !in bound.bindings
  {
    hide OutputsLaidOut, OutputStored, ValuesKept, IsMemory, OneProvider, BoundaryComplete;
    e :| e in source.edges && Feeds(source.edges[e], n, 0) &&
         source.edges[e].src in source.nodes && !IsMemory(source.nodes[source.edges[e].src]);
    assert bound.edges[e] == RewriteEdge(source.edges[e], layout.inputs);
    OnlyEdge(source, bound, scalars, layout, n, e);
    hide WellFormed, Specialises;
  }

  lemma ComputedOperand(dfg: Dfg, env: Environment, m: Machine, n: nat, e: nat, k: nat)
    requires n in dfg.nodes && |dfg.nodes[n].operandTypes| == 2 && (n, 0) !in dfg.bindings
    requires e in dfg.edges && Feeds(dfg.edges[e], n, 0) && dfg.edges[e].distance <= |m.past|
    requires forall f :: f in dfg.edges && Feeds(dfg.edges[f], n, 0) ==> f == e
    requires if dfg.edges[e].distance == 0 then At(m.now, dfg.edges[e].src) == k
             else At(m.past[|m.past| - dfg.edges[e].distance], dfg.edges[e].src) == k
    ensures Operands(dfg, env, m, n)[0] == k
  {
    assert OperandValue(dfg, env, m, n, 0) == k;
  }

  lemma BoundOperand(source: Dfg, bound: Dfg, env: Environment, layout: KernelLayout, m: Machine, n: nat)
    requires WellFormed(source) && Specialises(source, bound, env.scalars, layout)
    requires n in source.nodes && |source.nodes[n].operandTypes| == 2 && (n, 1) in source.bindings
    ensures n in bound.nodes && bound.nodes[n] == source.nodes[n]
    ensures Operands(bound, env, m, n)[1] == BoundWord(source, env.scalars, n, 1)
  {
    hide OutputsLaidOut, OutputStored, OneProvider, BoundaryComplete, RewriteEdge;
    NodeKept(source, bound, env.scalars, layout.inputs, n);
    var ref := source.bindings[(n, 1)];
    SameRef(source, bound, env, layout.inputs, ref);
    assert bound.bindings[(n, 1)] == RewriteRef(ref, layout.inputs);
    assert OperandValue(bound, env, m, n, 1) == RefValue(bound, env, RewriteRef(ref, layout.inputs));
  }

  lemma StoreHits(dfg: Dfg, env: Environment, m: Machine, n: nat, k: nat, word: nat)
    requires n in dfg.nodes && dfg.nodes[n].opcode == Store && |dfg.nodes[n].operandTypes| == 2
    requires Operands(dfg, env, m, n)[0] == k && Operands(dfg, env, m, n)[1] == word && k < |m.memory|
    ensures k < |Issue(dfg, env, m, n).memory| && Issue(dfg, env, m, n).memory[k] == word
  {
    hide Operands;
  }

  // What is issued behind the store leaves the word as it is.
  lemma LeavesWord(source: Dfg, bound: Dfg, env: Environment, layout: KernelLayout, m: Machine, p: nat, j: nat)
    requires WellFormed(source) && Specialises(source, bound, env.scalars, layout) && Unlabelled(source)
    requires ConstantAddressesClear(bound, layout.outputBase, layout.depth)
    requires j < |layout.outputs| && layout.outputs[j].address < |m.memory| && p != layout.outputs[j].store
    requires p in source.nodes || StoreOf(layout, p)
    requires p in source.nodes && source.nodes[p].opcode == Store ==> (p, 0) in source.bindings
    ensures var k := layout.outputs[j].address;
      k < |Issue(bound, env, m, p).memory| && Issue(bound, env, m, p).memory[k] == m.memory[k]
  {
    hide WellFormed, Unlabelled, ConstantAddressesClear, Issue, ProvidersKept, OutputsLaidOut, OutputStored, ValuesKept, SourceOf;
    OutputPlaces(source, bound, env.scalars, layout, j);
    if p in source.nodes {
      NodeKept(source, bound, env.scalars, layout.inputs, p);
      if source.nodes[p].opcode == Store {
        BoundAddressAvoids(source, bound, env, layout, m, p);
      }
      OnlyStoresWrite(bound, env, m, p, layout.outputs[j].address);
    } else {
      var i :| 0 <= i < |layout.outputs| && layout.outputs[i].store == p;
      OutputPlaces(source, bound, env.scalars, layout, i);
      StoreFires(source, bound, env, layout, m, i);
    }
  }

  lemma {:induction false} WordStays(source: Dfg, bound: Dfg, env: Environment, layout: KernelLayout, m: Machine,
                                     first: seq<nat>, after: seq<nat>, j: nat)
    requires WellFormed(source) && Specialises(source, bound, env.scalars, layout) && Unlabelled(source)
    requires ConstantAddressesClear(bound, layout.outputBase, layout.depth)
    requires j < |layout.outputs| && layout.outputs[j].address < |m.memory| && layout.outputs[j].store !in after
    requires forall p :: p in after ==> p in source.nodes || StoreOf(layout, p)
    requires forall p :: p in after && p in source.nodes && source.nodes[p].opcode == Store ==> (p, 0) in source.bindings
    ensures var k := layout.outputs[j].address;
      && |IssueAll(bound, env, m, first + after).memory| == |IssueAll(bound, env, m, first).memory| == |m.memory|
      && IssueAll(bound, env, m, first + after).memory[k] == IssueAll(bound, env, m, first).memory[k]
    decreases |after|
  {
    hide *;
    IssueAllKeeps(bound, env, m, first);
    IssueAllKeeps(bound, env, m, first + after);
    if after == [] {
      assert first + after == first;
    } else {
      var init, last := after[..|after| - 1], after[|after| - 1];
      assert after == init + [last];
      assert first + after == (first + init) + [last];
      assert ((first + init) + [last])[..|first + init|] == first + init;
      IssueAllKeeps(bound, env, m, first + init);
      WordStays(source, bound, env, layout, m, first, init, j);
      LastIssued(bound, env, m, first + after);
      LeavesWord(source, bound, env, layout, IssueAll(bound, env, m, first + init), last, j);
    }
  }

  // Once its address is there, the store puts its word where the output was.
  lemma HitsOutput(source: Dfg, bound: Dfg, scalars: map<nat, nat>, layout: KernelLayout, order: seq<nat>,
                   before: seq<nat>, n: nat, after: seq<nat>, j: nat, memory: seq<nat>, e: nat, d: nat)
    requires WellFormed(source) && Specialises(source, bound, scalars, layout)
    requires order == before + [n] + after && j < |layout.outputs| && layout.outputs[j].address < |memory|
    requires n in source.nodes && source.nodes[n].opcode == Store && |source.nodes[n].operandTypes| == 2
    requires (n, 1) in source.bindings && (n, 0) !in bound.bindings
    requires e in bound.edges && Feeds(bound.edges[e], n, 0) && bound.edges[e].distance == d
    requires forall f :: f in bound.edges && Feeds(bound.edges[f], n, 0) ==> f == e
    requires bound.edges[e].src in order && bound.edges[e].src in bound.nodes && !IsMemory(bound.nodes[bound.edges[e].src])
    requires d == 0 ==> bound.edges[e].src in before
    ensures var k, env := layout.outputs[j].address, Always(scalars, layout.outputs[j].address);
      var now := IssueAll(bound, env, Run(bound, env, order, memory, d), before + [n]);
      k < |now.memory| && now.memory[k] == BoundWord(source, scalars, n, 1)
  {
    hide *;
    var k := layout.outputs[j].address;
    var env := Always(scalars, k);
    var m := Run(bound, env, order, memory, d);
    var here := IssueAll(bound, env, m, before);
    AlwaysScalars(scalars, k);
    AddressReady(bound, scalars, k, order, memory, before, e, d);
    RunKeeps(bound, env, order, memory, d);
    IssueAllKeeps(bound, env, m, before);
    BoundOperand(source, bound, env, layout, here, n);
    ComputedOperand(bound, env, here, n, e, k);
    StoreHits(bound, env, here, n, k, BoundWord(source, scalars, n, 1));
    IssuedNext(bound, env, m, before, n);
  }

  lemma IssuedNext(dfg: Dfg, env: Environment, m: Machine, before: seq<nat>, n: nat)
    ensures IssueAll(dfg, env, m, before + [n]) == Issue(dfg, env, IssueAll(dfg, env, m, before), n)
  {
    hide Issue;
    assert (before + [n])[..|before|] == before;
  }

  lemma AddressReady(dfg: Dfg, scalars: map<nat, nat>, k: nat, order: seq<nat>, memory: seq<nat>, before: seq<nat>, e: nat,
                     d: nat)
    requires e in dfg.edges && dfg.edges[e].distance == d
    requires dfg.edges[e].src in order && dfg.edges[e].src in dfg.nodes && !IsMemory(dfg.nodes[dfg.edges[e].src])
    requires d == 0 ==> dfg.edges[e].src in before
    ensures var here := IssueAll(dfg, Always(scalars, k), Run(dfg, Always(scalars, k), order, memory, d), before);
      && |here.past| == d
      && if d == 0 then At(here.now, dfg.edges[e].src) == k else At(here.past[0], dfg.edges[e].src) == k
  {
    var env := Always(scalars, k);
    hide *;
    RunKeeps(dfg, env, order, memory, d);
    IssueAllKeeps(dfg, env, Run(dfg, env, order, memory, d), before);
    if d == 0 {
      OperationsGive(dfg, scalars, k, Run(dfg, env, order, memory, d), before, dfg.edges[e].src);
    } else {
      PastGives(dfg, scalars, k, order, memory, d, 0, dfg.edges[e].src);
    }
  }

  lemma ProviderBefore(source: Dfg, layout: KernelLayout, order: seq<nat>, before: seq<nat>, n: nat, after: seq<nat>, e: nat)
    requires Complete(source, layout, order) && order == before + [n] + after && e in source.edges
    requires source.edges[e].dst == n && !source.edges[e].info.MemoryEdge? && source.edges[e].src in source.nodes
    ensures source.edges[e].src in order && (source.edges[e].distance == 0 ==> source.edges[e].src in before)
  {
    hide Orderly;
    assert order[|before|] == n && order[..|before|] == before;
    if source.edges[e].distance == 0 {
      assert Immediate(source.edges[e]);
    }
  }

  lemma KindsOf(source: Dfg, layout: KernelLayout, order: seq<nat>, before: seq<nat>, n: nat, after: seq<nat>)
    requires Orderly(source, layout, order) && order == before + [n] + after
    ensures forall p :: p in after ==> p in source.nodes || StoreOf(layout, p)
  {
    hide StoreOf;
    forall p | p in after
      ensures p in source.nodes || StoreOf(layout, p)
    {
      var i :| 0 <= i < |after| && after[i] == p;
      assert order[|before| + 1 + i] == p;
    }
  }

  // The live-out's word is not what the promise says.
  lemma WordDiffers(source: Dfg, bound: Dfg, scalars: map<nat, nat>, layout: KernelLayout, order: seq<nat>, j: nat,
                    memory: seq<nat>, n: nat)
    requires j < |layout.outputs| && |memory| == layout.depth && n > 0
    requires var run := Run(bound, Always(scalars, layout.outputs[j].address), order, memory, n);
      && |run.past| == n && layout.outputs[j].address < |run.memory|
      && run.memory[layout.outputs[j].address] != At(run.past[n - 1], SourceOf(source, layout, j))
    ensures !MeansTheSame(source, bound, scalars, layout, order)
  {
    var env := Always(scalars, layout.outputs[j].address);
    hide Run, Originals, At, SourceOf;
    assert env.scalars == scalars;
    assert !Kept(source, bound, env, layout, order, memory, n);
  }

  /** Such a store overwrites the output under some operations: its word is not the live-out. */
  lemma ComputedStoreEscapes(source: Dfg, bound: Dfg, scalars: map<nat, nat>, layout: KernelLayout, order: seq<nat>,
                             before: seq<nat>, n: nat, after: seq<nat>, j: nat)
    requires WellFormed(source) && Specialises(source, bound, scalars, layout) && Unlabelled(source)
    requires ConstantAddressesClear(bound, layout.outputBase, layout.depth) && Complete(source, layout, order)
    requires order == before + [n] + after && Overwrites(source, scalars, layout, n, after, j)
    ensures !MeansTheSame(source, bound, scalars, layout, order)
  {
    var k := layout.outputs[j].address;
    var env, origin := Always(scalars, k), SourceOf(source, layout, j);
    assert Orderly(source, layout, order) && origin in order && env.scalars == scalars;
    hide *;
    OutputPlaces(source, bound, scalars, layout, j);
    var e := StoreEdge(source, bound, scalars, layout, n);
    var d := source.edges[e].distance;
    ProviderBefore(source, layout, order, before, n, after, e);
    NodeKept(source, bound, scalars, layout.inputs, source.edges[e].src);
    NodeKept(source, bound, scalars, layout.inputs, origin);
    var memory := Marked(layout.depth, k);
    HitsOutput(source, bound, scalars, layout, order, before, n, after, j, memory, e, d);
    KindsOf(source, layout, order, before, n, after);
    var m := Run(bound, env, order, memory, d);
    RunKeeps(bound, env, order, memory, d);
    WordStays(source, bound, env, layout, m, before + [n], after, j);
    RunKeeps(bound, env, order, memory, d + 1);
    PastGives(bound, scalars, k, order, memory, d + 1, d, origin);
    LastMemory(bound, env, order, memory, d);
    WordDiffers(source, bound, scalars, layout, order, j, memory, d + 1);
  }

  lemma LastMemory(dfg: Dfg, env: Environment, order: seq<nat>, memory: seq<nat>, n: nat)
    ensures Run(dfg, env, order, memory, n + 1).memory == IssueAll(dfg, env, Run(dfg, env, order, memory, n), order).memory
  {
    hide IssueAll;
  }

  // ----- Outputs stored last -----

  // The store's address is not bound.
  predicate Wanders(source: Dfg, n: nat) {
    n in source.nodes && source.nodes[n].opcode == Store && (n, 0) !in source.bindings
  }

  // No store with a computed address comes behind an output's.
  ghost predicate OutputsLast(source: Dfg, layout: KernelLayout, order: seq<nat>) {
    forall p, q :: 0 <= p < q < |order| && StoreOf(layout, order[p]) ==> !Wanders(source, order[q])
  }

  predicate LoadsBound(source: Dfg) {
    forall n :: n in source.nodes && source.nodes[n].opcode == Load ==> (n, 0) in source.bindings
  }

  lemma LastInit(source: Dfg, layout: KernelLayout, order: seq<nat>)
    requires order != [] && OutputsLast(source, layout, order)
    ensures OutputsLast(source, layout, order[..|order| - 1])
  {
    hide StoreOf, Wanders;
    var init := order[..|order| - 1];
    forall p, q | 0 <= p < q < |init| && StoreOf(layout, init[p])
      ensures !Wanders(source, init[q])
    {
      assert init[p] == order[p] && init[q] == order[q];
    }
  }

  lemma StoreFiresAlike(env: Environment, layout: KernelLayout, a: Machine, b: Machine, id: nat, node: Node, operands: seq<nat>)
    requires Agree(layout, a, b) && node.opcode == Store
    ensures Agree(layout, Fire(env, a, id, node, operands), Fire(env, b, id, node, operands))
  {
  }

  // An original node keeps the values alike, and its stores go astray only before any output is stored.
  lemma OriginalStep(source: Dfg, bound: Dfg, env: Environment, layout: KernelLayout, a: Machine, b: Machine,
                     order: seq<nat>)
    requires WellFormed(source) && Specialises(source, bound, env.scalars, layout) && Unlabelled(source)
    requires ConstantAddressesClear(bound, layout.outputBase, layout.depth) && LoadsBound(source)
    requires order != [] && Orderly(source, layout, order) && OutputsLast(source, layout, order)
    requires order[|order| - 1] in source.nodes && Agree(layout, a, b) && Stored(source, layout, b, order[..|order| - 1])
    ensures var n := order[|order| - 1];
      Agree(layout, Issue(source, env, a, n), Issue(bound, env, b, n)) && Stored(source, layout, Issue(bound, env, b, n), order)
  {
    var n := order[|order| - 1];
    hide WellFormed, Unlabelled, ConstantAddressesClear, Issue, Agree, Orderly, OutputStored, ValuesKept, ProvidersKept,
         StoreOf, Stored, OutputsLast;
    NotBothKinds(source, bound, env, layout, n);
    if Wanders(source, n) {
      SameOperandsOf(source, bound, env, layout, a, b, n);
      StoreFiresAlike(env, layout, a, b, n, source.nodes[n], Operands(source, env, a, n));
      IssueFires(source, env, a, n);
      IssueFires(bound, env, b, n);
      NoneStoredYet(source, layout, order, Issue(bound, env, b, n));
    } else {
      StaysOut(source, bound, env, layout, a, n);
      OriginalAgrees(source, bound, env, layout, a, b, n);
      MemorySized(layout, a, b);
      MemorySized(layout, Issue(source, env, a, n), Issue(bound, env, b, n));
      StoredAfterOriginal(source, layout, order, b, Issue(bound, env, b, n));
    }
  }

  lemma SameOperandsOf(source: Dfg, bound: Dfg, env: Environment, layout: KernelLayout, a: Machine, b: Machine, n: nat)
    requires WellFormed(source) && Specialises(source, bound, env.scalars, layout) && Agree(layout, a, b) && n in source.nodes
    ensures n in bound.nodes && bound.nodes[n] == source.nodes[n]
    ensures Operands(bound, env, b, n) == Operands(source, env, a, n)
  {
    hide WellFormed, Specialises, Operands, SameValues;
    SameOperands(source, bound, env, layout, a, b, n);
  }

  lemma IssueFires(dfg: Dfg, env: Environment, m: Machine, n: nat)
    requires n in dfg.nodes
    ensures Issue(dfg, env, m, n) == Fire(env, m, n, dfg.nodes[n], Operands(dfg, env, m, n))
  {
    hide Fire, Operands;
  }

  lemma NoneStoredYet(source: Dfg, layout: KernelLayout, order: seq<nat>, b: Machine)
    requires order != [] && OutputsLast(source, layout, order) && Wanders(source, order[|order| - 1])
    requires !StoreOf(layout, order[|order| - 1])
    ensures Stored(source, layout, b, order)
  {
    hide Wanders, SourceOf, At;
    forall j: nat | j < |layout.outputs|
      ensures layout.outputs[j].store !in order
    {
      forall p | 0 <= p < |order|
        ensures order[p] != layout.outputs[j].store
      {
        assert order[p] == layout.outputs[j].store ==> StoreOf(layout, order[p]);
      }
    }
  }

  lemma StaysOut(source: Dfg, bound: Dfg, env: Environment, layout: KernelLayout, a: Machine, n: nat)
    requires WellFormed(source) && Specialises(source, bound, env.scalars, layout) && Unlabelled(source)
    requires ConstantAddressesClear(bound, layout.outputBase, layout.depth) && LoadsBound(source)
    requires n in source.nodes && !Wanders(source, n)
    ensures Avoids(source, env, a, n, layout.outputBase, layout.depth)
  {
    if IsMemory(source.nodes[n]) {
      hide WellFormed, Specialises, Unlabelled, ConstantAddressesClear, Avoids;
      BoundAddressAvoids(source, bound, env, layout, a, n);
    } else {
      hide WellFormed, Specialises, Unlabelled, ConstantAddressesClear, Operands;
    }
  }

  lemma OriginalsStep(source: Dfg, env: Environment, a: Machine, order: seq<nat>)
    requires order != []
    ensures var (init, n) := (order[..|order| - 1], order[|order| - 1]);
      IssueAll(source, env, a, Originals(order, source)) ==
      if n in source.nodes then Issue(source, env, IssueAll(source, env, a, Originals(init, source)), n)
      else IssueAll(source, env, a, Originals(init, source))
  {
    hide Issue;
    var init, n := order[..|order| - 1], order[|order| - 1];
    if n in source.nodes {
      var all := Originals(order, source);
      assert all == Originals(init, source) + [n];
      assert all[..|all| - 1] == Originals(init, source);
    }
  }

  // Within an iteration, wherever the stores go: the same values, and the outputs stored.
  lemma {:induction false} LastIteration(source: Dfg, bound: Dfg, env: Environment, layout: KernelLayout, a: Machine,
                                         b: Machine, order: seq<nat>)
    requires WellFormed(source) && Specialises(source, bound, env.scalars, layout) && Unlabelled(source)
    requires ConstantAddressesClear(bound, layout.outputBase, layout.depth) && LoadsBound(source)
    requires Orderly(source, layout, order) && OutputsLast(source, layout, order) && Agree(layout, a, b)
    ensures Agree(layout, IssueAll(source, env, a, Originals(order, source)), IssueAll(bound, env, b, order))
    ensures Stored(source, layout, IssueAll(bound, env, b, order), order)
  {
    hide WellFormed, Unlabelled, ConstantAddressesClear, LoadsBound, OutputsLast, Issue, Agree, Orderly, OutputStored,
         ValuesKept, ProvidersKept, OutputsLaidOut, StoreOf;
    if order == [] {
      NothingStored(source, layout, b);
    } else {
      var init, n := order[..|order| - 1], order[|order| - 1];
      OrderlyInit(source, layout, order);
      LastInit(source, layout, order);
      OriginalsStep(source, env, a, order);
      LastIteration(source, bound, env, layout, a, b, init);
      var a0, b0 := IssueAll(source, env, a, Originals(init, source)), IssueAll(bound, env, b, init);
      if n in source.nodes {
        OriginalStep(source, bound, env, layout, a0, b0, order);
      } else {
        var j := StoreIndex(source, layout, order);
        StoreFires(source, bound, env, layout, b0, j);
        MemorySized(layout, a0, b0);
        StoredAfterStore(source, layout, order, b0, j);
        StoreAgrees(source, layout, a0, b0, j);
      }
    }
  }

  lemma {:induction false} LastMeansTheSame(source: Dfg, bound: Dfg, env: Environment, layout: KernelLayout,
                                            order: seq<nat>, memory: seq<nat>, n: nat)
    requires WellFormed(source) && Specialises(source, bound, env.scalars, layout) && Unlabelled(source)
    requires ConstantAddressesClear(bound, layout.outputBase, layout.depth) && LoadsBound(source)
    requires Complete(source, layout, order) && OutputsLast(source, layout, order) && |memory| == layout.depth
    ensures Kept(source, bound, env, layout, order, memory, n)
  {
    hide WellFormed, Specialises, Unlabelled, ConstantAddressesClear, LoadsBound, OutputsLast, Orderly, IssueAll, SourceOf,
         At, Originals;
    if n > 0 {
      LastMeansTheSame(source, bound, env, layout, order, memory, n - 1);
      var a := Run(source, env, Originals(order, source), memory, n - 1);
      var b := Run(bound, env, order, memory, n - 1);
      NowEmpty(source, env, Originals(order, source), memory, n - 1);
      NowEmpty(bound, env, order, memory, n - 1);
      LastIteration(source, bound, env, layout, a, b, order);
    }
  }

  /**
   * Kernels that write: loads are bound; a store has a bound address, or a computed one and a bound word that is no output's
   * address; live-outs are computed. All of it can be read off the graph and the invocation.
   */
  ghost predicate Writing(source: Dfg, scalars: map<nat, nat>, layout: KernelLayout) {
    && LoadsBound(source)
    && (forall n :: Wanders(source, n) ==>
          |source.nodes[n].operandTypes| == 2 && (n, 1) in source.bindings && AddressComputed(source, n) &&
          !(layout.outputBase <= BoundWord(source, scalars, n, 1) < layout.depth))
    && (forall l :: l in source.liveOuts ==>
          source.liveOuts[l].source in source.nodes && !IsMemory(source.nodes[source.liveOuts[l].source]))
  }

  // The last store that wanders, behind some output's.
  lemma LastWanderer(source: Dfg, layout: KernelLayout, order: seq<nat>) returns (p: nat, q: nat)
    requires !OutputsLast(source, layout, order)
    ensures p < q < |order| && StoreOf(layout, order[p]) && Wanders(source, order[q])
    ensures forall i :: q < i < |order| ==> !Wanders(source, order[i])
  {
    hide StoreOf, Wanders;
    var p0, q0 :| 0 <= p0 < q0 < |order| && StoreOf(layout, order[p0]) && Wanders(source, order[q0]);
    p, q := p0, q0;
    var i := q0 + 1;
    while i < |order|
      invariant p < q < i <= |order| && StoreOf(layout, order[p]) && Wanders(source, order[q])
      invariant forall k :: q < k < i ==> !Wanders(source, order[k])
    {
      if Wanders(source, order[i]) {
        q := i;
      }
      i := i + 1;
    }
  }

  lemma WandererOverwrites(source: Dfg, bound: Dfg, scalars: map<nat, nat>, layout: KernelLayout, order: seq<nat>, p: nat,
                           q: nat)
    returns (j: nat)
    requires Specialises(source, bound, scalars, layout) && Writing(source, scalars, layout)
    requires Orderly(source, layout, order) && p < q < |order| && StoreOf(layout, order[p]) && Wanders(source, order[q])
    requires forall i :: q < i < |order| ==> !Wanders(source, order[i])
    ensures Overwrites(source, scalars, layout, order[q], order[q + 1..], j)
  {
    hide BoundWord, AddressComputed, IsMemory, ValuesKept, ProvidersKept, OutputsLaidOut;
    j :| 0 <= j < |layout.outputs| && layout.outputs[j].store == order[p];
    OutputPlaces(source, bound, scalars, layout, j);
    var after := order[q + 1..];
    forall i | 0 <= i < |after|
      ensures !Wanders(source, after[i]) && after[i] != layout.outputs[j].store
    {
      assert after[i] == order[q + 1 + i];
    }
  }

  lemma LastIsEnough(source: Dfg, bound: Dfg, scalars: map<nat, nat>, layout: KernelLayout, order: seq<nat>)
    requires WellFormed(source) && Specialises(source, bound, scalars, layout) && Unlabelled(source)
    requires ConstantAddressesClear(bound, layout.outputBase, layout.depth) && LoadsBound(source)
    requires Complete(source, layout, order) && OutputsLast(source, layout, order)
    ensures MeansTheSame(source, bound, scalars, layout, order)
  {
    hide WellFormed, Specialises, Unlabelled, ConstantAddressesClear, Complete, OutputsLast, Kept, LoadsBound;
    forall env: Environment, memory: seq<nat>, n: nat | env.scalars == scalars && |memory| == layout.depth
      ensures Kept(source, bound, env, layout, order, memory, n)
    {
      LastMeansTheSame(source, bound, env, layout, order, memory, n);
    }
  }

  lemma CompleteIsOrderly(source: Dfg, layout: KernelLayout, order: seq<nat>)
    requires Complete(source, layout, order)
    ensures Orderly(source, layout, order)
  {
    hide Orderly;
  }

  lemma WritingLoads(source: Dfg, scalars: map<nat, nat>, layout: KernelLayout)
    requires Writing(source, scalars, layout)
    ensures LoadsBound(source)
  {
    hide LoadsBound, Wanders, BoundWord, AddressComputed;
  }

  /** For such kernels the promise holds whatever the operations compute exactly when all outputs are stored last. */
  lemma KeptExactlyWhenOutputsLast(source: Dfg, bound: Dfg, scalars: map<nat, nat>, layout: KernelLayout, order: seq<nat>)
    requires WellFormed(source) && Specialises(source, bound, scalars, layout) && Unlabelled(source)
    requires ConstantAddressesClear(bound, layout.outputBase, layout.depth) && Writing(source, scalars, layout)
    requires Complete(source, layout, order)
    ensures MeansTheSame(source, bound, scalars, layout, order) <==> OutputsLast(source, layout, order)
  {
    hide *;
    if OutputsLast(source, layout, order) {
      WritingLoads(source, scalars, layout);
      LastIsEnough(source, bound, scalars, layout, order);
    } else {
      CompleteIsOrderly(source, layout, order);
      var p, q := LastWanderer(source, layout, order);
      var j := WandererOverwrites(source, bound, scalars, layout, order, p, q);
      assert order == order[..q] + [order[q]] + order[q + 1..];
      ComputedStoreEscapes(source, bound, scalars, layout, order, order[..q], order[q], order[q + 1..], j);
    }
  }
}
