// When binding keeps the meaning of a kernel: exactly when its addresses are known, and where that stops being exact.

module KernelEscapes {
  import opened Wrappers
  import opened Kernels
  import opened KernelMeaning
  import opened KernelBinding
  import opened KernelInvocation
  import opened KernelRuns

  // ----- The condition -----

  /** An order for the bound graph that leaves nothing out and issues every provider within an iteration first. */
  ghost predicate Complete(source: Dfg, layout: KernelLayout, order: seq<nat>) {
    && Orderly(source, layout, order)
    && (forall n :: n in source.nodes ==> n in order)
    && (forall j :: 0 <= j < |layout.outputs| ==> layout.outputs[j].store in order)
    && (forall e, q :: (e in source.edges && Immediate(source.edges[e]) && 0 <= q < |order|) ==>
          (order[q] == source.edges[e].dst ==> source.edges[e].src in order[..q]))
  }

  // The value is needed within the iteration.
  predicate Immediate(edge: Edge) {
    !edge.info.MemoryEdge? && edge.distance == 0
  }

  /** The promise: the same values in every iteration and every live-out in its word, whatever the operations compute. */
  ghost predicate MeansTheSame(source: Dfg, bound: Dfg, scalars: map<nat, nat>, layout: KernelLayout, order: seq<nat>) {
    forall env: Environment, memory: seq<nat>, iterations: nat ::
      env.scalars == scalars && |memory| == layout.depth ==> Kept(source, bound, env, layout, order, memory, iterations)
  }

  ghost predicate Kept(source: Dfg, bound: Dfg, env: Environment, layout: KernelLayout, order: seq<nat>, memory: seq<nat>,
                       iterations: nat)
  {
    && Agree(layout, Run(source, env, Originals(order, source), memory, iterations), Run(bound, env, order, memory, iterations))
    && OutputsHold(source, layout, Run(bound, env, order, memory, iterations))
  }

  // The load's address comes from an operation rather than from memory.
  ghost predicate AddressComputed(source: Dfg, n: nat) {
    exists e :: e in source.edges && Feeds(source.edges[e], n, 0) &&
      source.edges[e].src in source.nodes && !IsMemory(source.nodes[source.edges[e].src])
  }

  // Some live-out is the result of an operation.
  ghost predicate ResultExported(source: Dfg) {
    exists l :: l in source.liveOuts && source.liveOuts[l].source in source.nodes &&
      !IsMemory(source.nodes[source.liveOuts[l].source])
  }

  /**
   * Stores go to bound addresses, loads to bound or computed ones, and a live-out, if there is any, is computed. All of it can
   * be read off the graph.
   */
  ghost predicate Transparent(source: Dfg) {
    && (forall n :: n in source.nodes && source.nodes[n].opcode == Load ==> |source.nodes[n].operandTypes| >= 1)
    && (forall n :: n in source.nodes && source.nodes[n].opcode == Store ==> (n, 0) in source.bindings)
    && (forall n :: n in source.nodes && source.nodes[n].opcode == Load && (n, 0) !in source.bindings ==>
          AddressComputed(source, n))
    && (source.liveOuts != map[] ==> ResultExported(source))
  }

  // ----- When every operation gives the same word -----

  ghost function Always(scalars: map<nat, nat>, k: nat): Environment {
    Environment(scalars, (op, operands) => k)
  }

  lemma OperationGives(dfg: Dfg, scalars: map<nat, nat>, k: nat, m: Machine, id: nat)
    requires id in dfg.nodes && !IsMemory(dfg.nodes[id])
    ensures At(Issue(dfg, Always(scalars, k), m, id).now, id) == k
  {
    hide Operands;
  }

  lemma IssueKeeps(dfg: Dfg, env: Environment, m: Machine, id: nat)
    ensures Issue(dfg, env, m, id).past == m.past && |Issue(dfg, env, m, id).memory| == |m.memory|
    ensures forall n :: n != id ==> At(Issue(dfg, env, m, id).now, n) == At(m.now, n)
  {
    hide Operands;
  }

  lemma {:induction false} IssueAllKeeps(dfg: Dfg, env: Environment, m: Machine, order: seq<nat>)
    ensures IssueAll(dfg, env, m, order).past == m.past && |IssueAll(dfg, env, m, order).memory| == |m.memory|
  {
    hide Issue;
    if order != [] {
      var init := order[..|order| - 1];
      IssueAllKeeps(dfg, env, m, init);
      IssueKeeps(dfg, env, IssueAll(dfg, env, m, init), order[|order| - 1]);
    }
  }

  lemma {:induction false} OperationsGive(dfg: Dfg, scalars: map<nat, nat>, k: nat, m: Machine, order: seq<nat>, p: nat)
    requires p in order && p in dfg.nodes && !IsMemory(dfg.nodes[p])
    ensures At(IssueAll(dfg, Always(scalars, k), m, order).now, p) == k
  {
    hide Issue, Always, At;
    var env, init, last := Always(scalars, k), order[..|order| - 1], order[|order| - 1];
    if last == p {
      OperationGives(dfg, scalars, k, IssueAll(dfg, env, m, init), p);
    } else {
      OperationsGive(dfg, scalars, k, m, init, p);
      IssueKeeps(dfg, env, IssueAll(dfg, env, m, init), last);
    }
  }

  // What is issued later leaves a value alone.
  lemma {:induction false} LaterKeep(dfg: Dfg, env: Environment, m: Machine, before: seq<nat>, after: seq<nat>, n: nat)
    requires n !in after
    ensures At(IssueAll(dfg, env, m, before + after).now, n) == At(IssueAll(dfg, env, m, before).now, n)
    decreases |after|
  {
    hide Issue, At;
    if after == [] {
      assert before + after == before;
    } else {
      var init, last := after[..|after| - 1], after[|after| - 1];
      assert before + after == (before + init) + [last];
      assert ((before + init) + [last])[..|before + init|] == before + init;
      LaterKeep(dfg, env, m, before, init, n);
      IssueKeeps(dfg, env, IssueAll(dfg, env, m, before + init), last);
    }
  }

  lemma {:induction false} PastGives(dfg: Dfg, scalars: map<nat, nat>, k: nat, order: seq<nat>, memory: seq<nat>, n: nat,
                                     t: nat, p: nat)
    requires t < n && p in order && p in dfg.nodes && !IsMemory(dfg.nodes[p])
    ensures |Run(dfg, Always(scalars, k), order, memory, n).past| == n
    ensures At(Run(dfg, Always(scalars, k), order, memory, n).past[t], p) == k
  {
    hide IssueAll, Always, At;
    var env := Always(scalars, k);
    var m := Run(dfg, env, order, memory, n - 1);
    RunKeeps(dfg, env, order, memory, n - 1);
    IssueAllKeeps(dfg, env, m, order);
    if t == n - 1 {
      OperationsGive(dfg, scalars, k, m, order, p);
    } else {
      PastGives(dfg, scalars, k, order, memory, n - 1, t, p);
    }
  }

  lemma {:induction false} RunKeeps(dfg: Dfg, env: Environment, order: seq<nat>, memory: seq<nat>, n: nat)
    ensures |Run(dfg, env, order, memory, n).past| == n && |Run(dfg, env, order, memory, n).memory| == |memory|
  {
    hide IssueAll;
    if n > 0 {
      RunKeeps(dfg, env, order, memory, n - 1);
      IssueAllKeeps(dfg, env, Run(dfg, env, order, memory, n - 1), order);
    }
  }

  // ----- The address read -----

  // The address an operation gives to the load, within an iteration or from an earlier one.
  lemma AddressIs(dfg: Dfg, scalars: map<nat, nat>, k: nat, m: Machine, n: nat, e: nat)
    requires n in dfg.nodes && dfg.nodes[n].opcode == Load && |dfg.nodes[n].operandTypes| >= 1 && (n, 0) !in dfg.bindings
    requires e in dfg.edges && Feeds(dfg.edges[e], n, 0)
    requires forall f :: f in dfg.edges && Feeds(dfg.edges[f], n, 0) ==> f == e
    requires dfg.edges[e].distance <= |m.past|
    requires if dfg.edges[e].distance == 0 then At(m.now, dfg.edges[e].src) == k
             else At(m.past[|m.past| - dfg.edges[e].distance], dfg.edges[e].src) == k
    ensures k < |m.memory| ==> At(Issue(dfg, Always(scalars, k), m, n).now, n) == m.memory[k]
  {
    var env := Always(scalars, k);
    assert OperandValue(dfg, env, m, n, 0) == k;
    assert Operands(dfg, env, m, n)[0] == k;
    hide Operands, OperandValue, Always;
  }

  // ----- The word read -----

  // Nothing the source does changes a word of the region.
  lemma {:induction false} SourceKeepsWord(source: Dfg, bound: Dfg, env: Environment, layout: KernelLayout, m: Machine,
                                           order: seq<nat>, x: nat)
    requires WellFormed(source) && Specialises(source, bound, env.scalars, layout) && Unlabelled(source)
    requires ConstantAddressesClear(bound, layout.outputBase, layout.depth) && Transparent(source)
    requires layout.outputBase <= x < layout.depth && x < |m.memory|
    ensures x < |IssueAll(source, env, m, order).memory| && IssueAll(source, env, m, order).memory[x] == m.memory[x]
  {
    hide WellFormed, Specialises, Unlabelled, ConstantAddressesClear, Transparent, Issue;
    if order != [] {
      var init, last := order[..|order| - 1], order[|order| - 1];
      SourceKeepsWord(source, bound, env, layout, m, init, x);
      var now := IssueAll(source, env, m, init);
      if last in source.nodes && source.nodes[last].opcode == Store {
        StoresAreBound(source, last);
        BoundAddressAvoids(source, bound, env, layout, now, last);
      }
      OnlyStoresWrite(source, env, now, last, x);
    }
  }

  lemma StoresAreBound(source: Dfg, n: nat)
    requires Transparent(source) && n in source.nodes && source.nodes[n].opcode == Store
    ensures (n, 0) in source.bindings
  {
  }

  lemma OnlyStoresWrite(dfg: Dfg, env: Environment, m: Machine, n: nat, x: nat)
    requires x < |m.memory|
    requires n in dfg.nodes && dfg.nodes[n].opcode == Store ==>
      Accessed(dfg.nodes[n], Operands(dfg, env, m, n)) != Some(x)
    ensures x < |Issue(dfg, env, m, n).memory| && Issue(dfg, env, m, n).memory[x] == m.memory[x]
  {
    hide Operands;
  }

  lemma {:induction false} SourceRunKeepsWord(source: Dfg, bound: Dfg, env: Environment, layout: KernelLayout,
                                              order: seq<nat>, memory: seq<nat>, n: nat, x: nat)
    requires WellFormed(source) && Specialises(source, bound, env.scalars, layout) && Unlabelled(source)
    requires ConstantAddressesClear(bound, layout.outputBase, layout.depth) && Transparent(source)
    requires layout.outputBase <= x < layout.depth && x < |memory|
    ensures x < |Run(source, env, order, memory, n).memory| && Run(source, env, order, memory, n).memory[x] == memory[x]
  {
    hide WellFormed, Specialises, Unlabelled, ConstantAddressesClear, Transparent, IssueAll;
    if n > 0 {
      SourceRunKeepsWord(source, bound, env, layout, order, memory, n - 1, x);
      SourceKeepsWord(source, bound, env, layout, Run(source, env, order, memory, n - 1), order, x);
    }
  }

  // In the bound graph the word of an operation's output holds the operation's result once it has been stored.
  lemma {:induction false} BoundKeepsWord(source: Dfg, bound: Dfg, scalars: map<nat, nat>, layout: KernelLayout, k: nat,
                                          m: Machine, order: seq<nat>, j: nat)
    requires WellFormed(source) && Specialises(source, bound, scalars, layout) && Unlabelled(source)
    requires ConstantAddressesClear(bound, layout.outputBase, layout.depth) && Transparent(source)
    requires Orderly(source, layout, order) && |m.memory| == layout.depth
    requires j < |layout.outputs| && layout.outputs[j].address == k
    requires SourceOf(source, layout, j) in source.nodes && !IsMemory(source.nodes[SourceOf(source, layout, j)])
    requires m.memory[k] == k || layout.outputs[j].store in order
    ensures |IssueAll(bound, Always(scalars, k), m, order).memory| == layout.depth && k < layout.depth
    ensures IssueAll(bound, Always(scalars, k), m, order).memory[k] == k
  {
    hide *;
    var env := Always(scalars, k);
    AlwaysScalars(scalars, k);
    OutputPlaces(source, bound, scalars, layout, j);
    IssueAllKeeps(bound, env, m, order);
    if order == [] {
      NothingIssued(bound, env, m);
    } else {
      var init, last := order[..|order| - 1], order[|order| - 1];
      var now := IssueAll(bound, env, m, init);
      LastIssued(bound, env, m, order);
      OrderlyInit(source, layout, order);
      IssueAllKeeps(bound, env, m, init);
      assert order == init + [last];
      if last in source.nodes {
        NotBothKinds(source, bound, env, layout, last);
        NotTheStore(layout, last, j);
        BoundKeepsWord(source, bound, scalars, layout, k, m, init, j);
        OriginalKeepsWord(source, bound, env, layout, now, last, k);
      } else {
        var i := StoreIndex(source, layout, order);
        StoreWritesWord(source, bound, scalars, layout, k, m, order, i, j);
        if i != j {
          OutputPlaces(source, bound, scalars, layout, i);
          BoundKeepsWord(source, bound, scalars, layout, k, m, init, j);
        }
      }
    }
  }

  lemma AlwaysScalars(scalars: map<nat, nat>, k: nat)
    ensures Always(scalars, k).scalars == scalars
  {
  }

  lemma NothingIssued(dfg: Dfg, env: Environment, m: Machine)
    ensures IssueAll(dfg, env, m, []) == m
  {
  }

  lemma LastIssued(dfg: Dfg, env: Environment, m: Machine, order: seq<nat>)
    requires order != []
    ensures IssueAll(dfg, env, m, order) == Issue(dfg, env, IssueAll(dfg, env, m, order[..|order| - 1]), order[|order| - 1])
  {
    hide Issue;
  }

  // The store of one output, seen from the word of another or its own.
  lemma StoreWritesWord(source: Dfg, bound: Dfg, scalars: map<nat, nat>, layout: KernelLayout, k: nat, m: Machine,
                        order: seq<nat>, i: nat, j: nat)
    requires Specialises(source, bound, scalars, layout) && Orderly(source, layout, order) && |m.memory| == layout.depth
    requires order != [] && i < |layout.outputs| && order[|order| - 1] == layout.outputs[i].store
    requires j < |layout.outputs| && layout.outputs[j].address == k < layout.depth
    requires SourceOf(source, layout, j) in source.nodes && !IsMemory(source.nodes[SourceOf(source, layout, j)])
    ensures var env, init := Always(scalars, k), order[..|order| - 1];
      var now := IssueAll(bound, env, m, init);
      && |now.memory| == |Issue(bound, env, now, order[|order| - 1]).memory| == layout.depth
      && Issue(bound, env, now, order[|order| - 1]).memory[k] == if i == j then k else now.memory[k]
  {
    var env, init := Always(scalars, k), order[..|order| - 1];
    var now := IssueAll(bound, env, m, init);
    hide *;
    IssueAllKeeps(bound, env, m, init);
    OutputPlaces(source, bound, scalars, layout, i);
    OutputPlaces(source, bound, scalars, layout, j);
    StoreFires(source, bound, env, layout, now, i);
    if i == j {
      SourceBefore(source, layout, order, j);
      NodeKept(source, bound, scalars, layout.inputs, SourceOf(source, layout, j));
      OperationsGive(bound, scalars, k, m, init, SourceOf(source, layout, j));
    }
  }

  lemma OutputPlaces(source: Dfg, bound: Dfg, scalars: map<nat, nat>, layout: KernelLayout, j: nat)
    requires Specialises(source, bound, scalars, layout) && j < |layout.outputs|
    ensures layout.outputBase <= layout.outputs[j].address == layout.outputBase + j < layout.depth
    ensures OutputStored(source, bound, layout.outputs[j]) && ValuesKept(source, bound, scalars, layout.inputs)
    ensures forall i :: 0 <= i < |layout.outputs| && i != j ==> layout.outputs[i].store != layout.outputs[j].store
  {
    hide OutputStored, ValuesKept, ProvidersKept;
  }

  lemma NotTheStore(layout: KernelLayout, n: nat, j: nat)
    requires !StoreOf(layout, n) && j < |layout.outputs|
    ensures n != layout.outputs[j].store
  {
  }

  lemma SourceBefore(source: Dfg, layout: KernelLayout, order: seq<nat>, j: nat)
    requires Orderly(source, layout, order) && order != [] && j < |layout.outputs|
    requires order[|order| - 1] == layout.outputs[j].store
    ensures SourceOf(source, layout, j) in order[..|order| - 1]
  {
  }

  lemma OriginalKeepsWord(source: Dfg, bound: Dfg, env: Environment, layout: KernelLayout, m: Machine, n: nat, x: nat)
    requires WellFormed(source) && Specialises(source, bound, env.scalars, layout) && Unlabelled(source)
    requires ConstantAddressesClear(bound, layout.outputBase, layout.depth) && Transparent(source)
    requires n in source.nodes && layout.outputBase <= x < layout.depth && x < |m.memory|
    ensures x < |Issue(bound, env, m, n).memory| && Issue(bound, env, m, n).memory[x] == m.memory[x]
  {
    hide WellFormed, Unlabelled, ConstantAddressesClear, Transparent, Issue, ProvidersKept, OutputsLaidOut, OutputStored, ValuesKept;
    NodeKept(source, bound, env.scalars, layout.inputs, n);
    if source.nodes[n].opcode == Store {
      StoresAreBound(source, n);
      BoundAddressAvoids(source, bound, env, layout, m, n);
    }
    OnlyStoresWrite(bound, env, m, n, x);
  }

  lemma {:induction false} BoundRunKeepsWord(source: Dfg, bound: Dfg, scalars: map<nat, nat>, layout: KernelLayout, k: nat,
                                             order: seq<nat>, memory: seq<nat>, n: nat, j: nat)
    requires WellFormed(source) && Specialises(source, bound, scalars, layout) && Unlabelled(source)
    requires ConstantAddressesClear(bound, layout.outputBase, layout.depth) && Transparent(source)
    requires Complete(source, layout, order) && |memory| == layout.depth && n > 0
    requires j < |layout.outputs| && layout.outputs[j].address == k
    requires SourceOf(source, layout, j) in source.nodes && !IsMemory(source.nodes[SourceOf(source, layout, j)])
    ensures |Run(bound, Always(scalars, k), order, memory, n).memory| == layout.depth && k < layout.depth
    ensures Run(bound, Always(scalars, k), order, memory, n).memory[k] == k
  {
    hide WellFormed, Specialises, Unlabelled, ConstantAddressesClear, Transparent, IssueAll, SourceOf, IsMemory, Orderly;
    RunKeeps(bound, Always(scalars, k), order, memory, n - 1);
    BoundKeepsWord(source, bound, scalars, layout, k, Run(bound, Always(scalars, k), order, memory, n - 1), order, j);
  }

  // ----- The converse -----

  lemma {:induction false} OriginalsConcat(before: seq<nat>, after: seq<nat>, source: Dfg)
    ensures Originals(before + after, source) == Originals(before, source) + Originals(after, source)
    decreases |after|
  {
    if after == [] {
      assert before + after == before;
    } else {
      var init, last := after[..|after| - 1], after[|after| - 1];
      assert before + after == (before + init) + [last];
      assert ((before + init) + [last])[..|before + init|] == before + init;
      OriginalsConcat(before, init, source);
    }
  }

  lemma {:induction false} OriginalsAre(order: seq<nat>, source: Dfg)
    ensures forall n :: n in Originals(order, source) <==> n in order && n in source.nodes
  {
    if order != [] {
      OriginalsAre(order[..|order| - 1], source);
      assert order == order[..|order| - 1] + [order[|order| - 1]];
    }
  }

  // The load's address comes over one edge from an operation.
  ghost predicate ReadsThrough(dfg: Dfg, n: nat, e: nat) {
    && n in dfg.nodes && dfg.nodes[n].opcode == Load && |dfg.nodes[n].operandTypes| >= 1 && (n, 0) !in dfg.bindings
    && e in dfg.edges && Feeds(dfg.edges[e], n, 0)
    && (forall f :: f in dfg.edges && Feeds(dfg.edges[f], n, 0) ==> f == e)
    && dfg.edges[e].src in dfg.nodes && !IsMemory(dfg.nodes[dfg.edges[e].src])
  }

  // The load is issued between `before` and `after`, behind its provider where it is needed at once.
  ghost predicate Placed(dfg: Dfg, n: nat, e: nat, before: seq<nat>, after: seq<nat>) {
    && e in dfg.edges && n !in after && (dfg.edges[e].distance == 0 ==> dfg.edges[e].src in before)
    && dfg.edges[e].src in before + [n] + after
  }

  // A load of a word that is issued once: what its value is after the iteration.
  lemma LoadReads(dfg: Dfg, scalars: map<nat, nat>, k: nat, m: Machine, before: seq<nat>, n: nat, after: seq<nat>, e: nat)
    requires ReadsThrough(dfg, n, e) && Placed(dfg, n, e, before, after)
    requires 0 < dfg.edges[e].distance ==>
      (dfg.edges[e].distance <= |m.past| && At(m.past[|m.past| - dfg.edges[e].distance], dfg.edges[e].src) == k)
    ensures var env := Always(scalars, k);
      var here := IssueAll(dfg, env, m, before);
      k < |here.memory| ==> At(IssueAll(dfg, env, m, before + [n] + after).now, n) == here.memory[k]
  {
    var env := Always(scalars, k);
    var here := IssueAll(dfg, env, m, before);
    IssueAllKeeps(dfg, env, m, before);
    if dfg.edges[e].distance == 0 {
      OperationsGive(dfg, scalars, k, m, before, dfg.edges[e].src);
    }
    AddressIs(dfg, scalars, k, here, n, e);
    hide *;
    assert (before + [n])[..|before|] == before && (before + [n])[|before|] == n;
    LastIssued(dfg, env, m, before + [n]);
    LaterKeep(dfg, env, m, before + [n], after, n);
  }

  // One iteration after all the load needs is there, its value is the word's.
  lemma RunReads(dfg: Dfg, scalars: map<nat, nat>, k: nat, order: seq<nat>, memory: seq<nat>, before: seq<nat>, n: nat,
                 after: seq<nat>, e: nat, d: nat, word: nat)
    requires ReadsThrough(dfg, n, e) && Placed(dfg, n, e, before, after) && order == before + [n] + after
    requires e in dfg.edges && dfg.edges[e].distance == d
    requires var here := IssueAll(dfg, Always(scalars, k), Run(dfg, Always(scalars, k), order, memory, d + 1), before);
      k < |here.memory| && here.memory[k] == word
    ensures var run := Run(dfg, Always(scalars, k), order, memory, d + 2);
      |run.past| == d + 2 && At(run.past[d + 1], n) == word
  {
    var env, p := Always(scalars, k), dfg.edges[e].src;
    hide Issue, IssueAll, Run, Always, At, Feeds, IsMemory;
    RunKeeps(dfg, env, order, memory, d + 1);
    if 0 < d {
      PastGives(dfg, scalars, k, order, memory, d + 1, 1, p);
    }
    hide ReadsThrough, Placed;
    LoadReads(dfg, scalars, k, Run(dfg, env, order, memory, d + 1), before, n, after, e);
    LastPast(dfg, env, order, memory, d + 1);
  }

  lemma LastPast(dfg: Dfg, env: Environment, order: seq<nat>, memory: seq<nat>, n: nat)
    ensures |Run(dfg, env, order, memory, n + 1).past| == n + 1
    ensures Run(dfg, env, order, memory, n + 1).past[n] == IssueAll(dfg, env, Run(dfg, env, order, memory, n), order).now
  {
    hide IssueAll;
    RunKeeps(dfg, env, order, memory, n);
    IssueAllKeeps(dfg, env, Run(dfg, env, order, memory, n), order);
  }

  // The one edge that provides the load's address, in both graphs.
  lemma AddressEdge(source: Dfg, bound: Dfg, scalars: map<nat, nat>, layout: KernelLayout, n: nat) returns (e: nat)
    requires WellFormed(source) && Specialises(source, bound, scalars, layout) && Transparent(source)
    requires n in source.nodes && source.nodes[n].opcode == Load && (n, 0) !in source.bindings
    ensures ReadsThrough(source, n, e) && ReadsThrough(bound, n, e) && e in source.edges && e in bound.edges
    ensures bound.edges[e].src == source.edges[e].src && bound.edges[e].distance == source.edges[e].distance
  {
    hide OutputsLaidOut, OutputStored, ValuesKept, IsMemory, OneProvider, BoundaryComplete;
    assert AddressComputed(source, n);
    e :| e in source.edges && Feeds(source.edges[e], n, 0) &&
         source.edges[e].src in source.nodes && !IsMemory(source.nodes[source.edges[e].src]);
    NodeKept(source, bound, scalars, layout.inputs, n);
    NodeKept(source, bound, scalars, layout.inputs, source.edges[e].src);
    assert bound.edges[e] == RewriteEdge(source.edges[e], layout.inputs);
    OnlyEdge(source, bound, scalars, layout, n, e);
    hide WellFormed, Specialises, Transparent;
  }

  lemma OnlyEdge(source: Dfg, bound: Dfg, scalars: map<nat, nat>, layout: KernelLayout, n: nat, e: nat)
    requires WellFormed(source) && ProvidersKept(source, bound, layout.inputs) && n in source.nodes
    requires e in source.edges && Feeds(source.edges[e], n, 0)
    ensures e in bound.edges && Feeds(bound.edges[e], n, 0)
    ensures forall f :: f in source.edges && Feeds(source.edges[f], n, 0) ==> f == e
    ensures forall f :: f in bound.edges && Feeds(bound.edges[f], n, 0) ==> f == e
  {
    hide WellFormed, ProvidersKept, Feeds;
    forall f | f in source.edges && Feeds(source.edges[f], n, 0)
      ensures f == e
    {
      OneFeeds(source, n, 0, e, f);
    }
    forall f
      ensures f in bound.edges && Feeds(bound.edges[f], n, 0) <==> f in source.edges && Feeds(source.edges[f], n, 0)
    {
      SameFeeds(source, bound, layout.inputs, n, 0, f);
    }
  }

  // An output that carries the result of an operation.
  lemma ComputedOutput(source: Dfg, bound: Dfg, scalars: map<nat, nat>, layout: KernelLayout) returns (j: nat)
    requires WellFormed(source) && Specialises(source, bound, scalars, layout) && Transparent(source) && source.liveOuts != map[]
    ensures j < |layout.outputs|
    ensures SourceOf(source, layout, j) in source.nodes && !IsMemory(source.nodes[SourceOf(source, layout, j)])
  {
    hide WellFormed, ValuesKept, ProvidersKept, OutputStored;
    assert ResultExported(source);
    var l :| l in source.liveOuts && source.liveOuts[l].source in source.nodes &&
             !IsMemory(source.nodes[source.liveOuts[l].source]);
    j :| 0 <= j < |layout.outputs| && layout.outputs[j].output == l;
  }

  /** A computed load address leads into the region under some operations and memory: the values differ. */
  lemma ComputedLoadEscapes(source: Dfg, bound: Dfg, scalars: map<nat, nat>, layout: KernelLayout, order: seq<nat>, n: nat)
    requires WellFormed(source) && Specialises(source, bound, scalars, layout) && Unlabelled(source)
    requires ConstantAddressesClear(bound, layout.outputBase, layout.depth) && Transparent(source)
    requires Complete(source, layout, order) && source.liveOuts != map[]
    requires n in source.nodes && source.nodes[n].opcode == Load && (n, 0) !in source.bindings
    ensures !MeansTheSame(source, bound, scalars, layout, order)
  {
    hide *;
    var e := AddressEdge(source, bound, scalars, layout, n);
    var j := ComputedOutput(source, bound, scalars, layout);
    OutputPlaces(source, bound, scalars, layout, j);
    var k, d := layout.outputs[j].address, source.edges[e].distance;
    var memory := Marked(layout.depth, k);
    var before, after := SplitAt(source, bound, layout, order, n, e);
    SourceReads(source, bound, scalars, layout, n, e, k, memory, before, after, d);
    BoundReads(source, bound, scalars, layout, order, n, e, k, memory, before, after, j, d);
    AboutKept(source, bound, scalars, layout, order, memory, k, d + 2);
  }

  // A scratchpad with another word at k.
  function Marked(depth: nat, k: nat): (memory: seq<nat>)
    ensures |memory| == depth && (k < depth ==> memory[k] == k + 1)
  {
    seq<nat>(depth, i requires 0 <= i < depth => if i == k then k + 1 else 0)
  }

  lemma AboutKept(source: Dfg, bound: Dfg, scalars: map<nat, nat>, layout: KernelLayout, order: seq<nat>, memory: seq<nat>,
                  k: nat, n: nat)
    requires |memory| == layout.depth
    ensures MeansTheSame(source, bound, scalars, layout, order) ==>
      Run(source, Always(scalars, k), Originals(order, source), memory, n).past ==
      Run(bound, Always(scalars, k), order, memory, n).past
  {
    hide Run, Originals;
    var env := Always(scalars, k);
    if MeansTheSame(source, bound, scalars, layout, order) {
      assert env.scalars == scalars;
      assert Kept(source, bound, env, layout, order, memory, n);
    }
  }

  // The order around the load.
  lemma SplitAt(source: Dfg, bound: Dfg, layout: KernelLayout, order: seq<nat>, n: nat, e: nat)
    returns (before: seq<nat>, after: seq<nat>)
    requires Complete(source, layout, order) && ReadsThrough(source, n, e) && ReadsThrough(bound, n, e)
    requires bound.edges[e].src == source.edges[e].src && bound.edges[e].distance == source.edges[e].distance
    ensures order == before + [n] + after && Orderly(source, layout, before)
    ensures Placed(source, n, e, before, after) && Placed(bound, n, e, before, after)
  {
    hide SourceOf, StoreOf, IsMemory;
    var q :| 0 <= q < |order| && order[q] == n;
    before, after := order[..q], order[q + 1..];
    assert order == before + [n] + after;
    if source.edges[e].distance == 0 {
      assert Immediate(source.edges[e]);
    }
    forall i | 0 <= i < |after|
      ensures after[i] != n
    {
      assert order[q + 1 + i] == after[i];
    }
    OrderlyPrefix(source, layout, order, q);
  }

  lemma {:induction false} OrderlyPrefix(source: Dfg, layout: KernelLayout, order: seq<nat>, q: nat)
    requires Orderly(source, layout, order) && q <= |order|
    ensures Orderly(source, layout, order[..q])
    decreases |order|
  {
    hide Orderly;
    if q == |order| {
      assert order[..q] == order;
    } else {
      OrderlyInit(source, layout, order);
      OrderlyPrefix(source, layout, order[..|order| - 1], q);
      assert order[..|order| - 1][..q] == order[..q];
    }
  }

  lemma OriginalsAround(source: Dfg, n: nat, e: nat, before: seq<nat>, after: seq<nat>)
    requires ReadsThrough(source, n, e) && Placed(source, n, e, before, after)
    ensures Originals(before + [n] + after, source) == Originals(before, source) + [n] + Originals(after, source)
    ensures Placed(source, n, e, Originals(before, source), Originals(after, source))
  {
    hide Feeds, IsMemory;
    OriginalsAre(before, source);
    OriginalsAre(after, source);
    OriginalsConcat(before, [n], source);
    OriginalsConcat(before + [n], after, source);
    assert Originals([n], source) == [n];
  }

  lemma SourceWord(source: Dfg, bound: Dfg, scalars: map<nat, nat>, layout: KernelLayout, own: seq<nat>, k: nat,
                   memory: seq<nat>, before: seq<nat>, n: nat)
    requires WellFormed(source) && Specialises(source, bound, scalars, layout) && Unlabelled(source)
    requires ConstantAddressesClear(bound, layout.outputBase, layout.depth) && Transparent(source)
    requires layout.outputBase <= k < layout.depth == |memory|
    ensures var here := IssueAll(source, Always(scalars, k), Run(source, Always(scalars, k), own, memory, n), before);
      k < |here.memory| && here.memory[k] == memory[k]
  {
    hide *;
    AlwaysScalars(scalars, k);
    SourceRunKeepsWord(source, bound, Always(scalars, k), layout, own, memory, n, k);
    SourceKeepsWord(source, bound, Always(scalars, k), layout, Run(source, Always(scalars, k), own, memory, n), before, k);
  }

  lemma BoundWord(source: Dfg, bound: Dfg, scalars: map<nat, nat>, layout: KernelLayout, order: seq<nat>, k: nat,
                  memory: seq<nat>, before: seq<nat>, n: nat, j: nat)
    requires WellFormed(source) && Specialises(source, bound, scalars, layout) && Unlabelled(source)
    requires ConstantAddressesClear(bound, layout.outputBase, layout.depth) && Transparent(source)
    requires Complete(source, layout, order) && Orderly(source, layout, before) && |memory| == layout.depth && n > 0
    requires j < |layout.outputs| && layout.outputs[j].address == k
    requires SourceOf(source, layout, j) in source.nodes && !IsMemory(source.nodes[SourceOf(source, layout, j)])
    ensures var here := IssueAll(bound, Always(scalars, k), Run(bound, Always(scalars, k), order, memory, n), before);
      k < |here.memory| && here.memory[k] == k
  {
    hide *;
    RunKeeps(bound, Always(scalars, k), order, memory, n);
    BoundRunKeepsWord(source, bound, scalars, layout, k, order, memory, n, j);
    BoundKeepsWord(source, bound, scalars, layout, k, Run(bound, Always(scalars, k), order, memory, n), before, j);
  }

  // In the source the load reads what was in the word from the start.
  lemma SourceReads(source: Dfg, bound: Dfg, scalars: map<nat, nat>, layout: KernelLayout, n: nat, e: nat, k: nat,
                    memory: seq<nat>, before: seq<nat>, after: seq<nat>, d: nat)
    requires WellFormed(source) && Specialises(source, bound, scalars, layout) && Unlabelled(source)
    requires ConstantAddressesClear(bound, layout.outputBase, layout.depth) && Transparent(source)
    requires ReadsThrough(source, n, e) && Placed(source, n, e, before, after)
    requires e in source.edges && source.edges[e].distance == d
    requires layout.outputBase <= k < layout.depth == |memory|
    ensures var run := Run(source, Always(scalars, k), Originals(before + [n] + after, source), memory, d + 2);
      |run.past| == d + 2 && At(run.past[d + 1], n) == memory[k]
  {
    hide *;
    var own := Originals(before + [n] + after, source);
    OriginalsAround(source, n, e, before, after);
    SourceWord(source, bound, scalars, layout, own, k, memory, Originals(before, source), d + 1);
    RunReads(source, scalars, k, own, memory, Originals(before, source), n, Originals(after, source), e, d, memory[k]);
  }

  // In the bound graph it reads the output stored there.
  lemma BoundReads(source: Dfg, bound: Dfg, scalars: map<nat, nat>, layout: KernelLayout, order: seq<nat>, n: nat, e: nat,
                   k: nat, memory: seq<nat>, before: seq<nat>, after: seq<nat>, j: nat, d: nat)
    requires WellFormed(source) && Specialises(source, bound, scalars, layout) && Unlabelled(source)
    requires ConstantAddressesClear(bound, layout.outputBase, layout.depth) && Transparent(source)
    requires Complete(source, layout, order) && Orderly(source, layout, before)
    requires ReadsThrough(bound, n, e) && Placed(bound, n, e, before, after) && order == before + [n] + after
    requires e in bound.edges && bound.edges[e].distance == d
    requires j < |layout.outputs| && layout.outputs[j].address == k && |memory| == layout.depth
    requires SourceOf(source, layout, j) in source.nodes && !IsMemory(source.nodes[SourceOf(source, layout, j)])
    ensures var run := Run(bound, Always(scalars, k), order, memory, d + 2);
      |run.past| == d + 2 && At(run.past[d + 1], n) == k
  {
    hide *;
    BoundWord(source, bound, scalars, layout, order, k, memory, before, d + 1, j);
    RunReads(bound, scalars, k, order, memory, before, n, after, e, d, k);
  }

  // ----- Exactly when -----

  // Without outputs there is no region to touch.
  lemma {:induction false} NoRegionAvoids(source: Dfg, env: Environment, order: seq<nat>, memory: seq<nat>, n: nat, base: nat)
    ensures RunAvoids(source, env, order, memory, n, base, base)
  {
    hide AvoidsAll, Run;
    if n > 0 {
      NoRegionAvoids(source, env, order, memory, n - 1, base);
      NoRegionAvoidsAll(source, env, Run(source, env, order, memory, n - 1), order, base);
    }
  }

  lemma {:induction false} NoRegionAvoidsAll(source: Dfg, env: Environment, m: Machine, order: seq<nat>, base: nat)
    ensures AvoidsAll(source, env, m, order, base, base)
  {
    hide IssueAll, Operands;
    if order != [] {
      NoRegionAvoidsAll(source, env, m, order[..|order| - 1], base);
    }
  }

  lemma StaticMeansTheSame(source: Dfg, bound: Dfg, scalars: map<nat, nat>, layout: KernelLayout, order: seq<nat>)
    requires WellFormed(source) && Specialises(source, bound, scalars, layout) && Unlabelled(source)
    requires ConstantAddressesClear(bound, layout.outputBase, layout.depth) && Complete(source, layout, order)
    requires source.liveOuts == map[] || StaticAddresses(source)
    ensures MeansTheSame(source, bound, scalars, layout, order)
  {
    forall env: Environment, memory: seq<nat>, n: nat | env.scalars == scalars && |memory| == layout.depth
      ensures Kept(source, bound, env, layout, order, memory, n)
    {
      if source.liveOuts == map[] {
        NoOutputsNoRegion(source, bound, scalars, layout);
        NoRegionAvoids(source, env, Originals(order, source), memory, n, layout.outputBase);
        hide WellFormed, Specialises, Unlabelled, ConstantAddressesClear, StaticAddresses, Orderly, RunAvoids, Run;
        MeaningPreserved(source, bound, env, layout, order, memory, n);
      } else {
        hide WellFormed, Specialises, Unlabelled, ConstantAddressesClear, StaticAddresses, Orderly, RunAvoids, Run;
        StaticMeaningPreserved(source, bound, env, layout, order, memory, n);
      }
    }
  }

  lemma NoOutputsNoRegion(source: Dfg, bound: Dfg, scalars: map<nat, nat>, layout: KernelLayout)
    requires Specialises(source, bound, scalars, layout) && source.liveOuts == map[]
    ensures layout.outputBase == layout.depth
  {
    hide ValuesKept, ProvidersKept, OutputStored;
    assert |layout.outputs| > 0 ==> layout.outputs[0].output in source.liveOuts;
  }

  /**
   * For transparent kernels the promise holds whatever the operations compute exactly when there are no outputs or every
   * address is known: the binder's check of constant addresses is exact, and nothing less would do.
   */
  lemma KeptExactlyWhenStatic(source: Dfg, bound: Dfg, scalars: map<nat, nat>, layout: KernelLayout, order: seq<nat>)
    requires WellFormed(source) && Specialises(source, bound, scalars, layout) && Unlabelled(source)
    requires ConstantAddressesClear(bound, layout.outputBase, layout.depth) && Transparent(source)
    requires Complete(source, layout, order)
    ensures MeansTheSame(source, bound, scalars, layout, order) <==> source.liveOuts == map[] || StaticAddresses(source)
  {
    if source.liveOuts == map[] || StaticAddresses(source) {
      StaticMeansTheSame(source, bound, scalars, layout, order);
    } else {
      var n := UnknownLoad(source);
      ComputedLoadEscapes(source, bound, scalars, layout, order, n);
    }
  }

  lemma UnknownLoad(source: Dfg) returns (n: nat)
    requires Transparent(source) && !StaticAddresses(source)
    ensures n in source.nodes && source.nodes[n].opcode == Load && (n, 0) !in source.bindings
  {
    n :| n in source.nodes && IsMemory(source.nodes[n]) && (n, 0) !in source.bindings;
  }
}
