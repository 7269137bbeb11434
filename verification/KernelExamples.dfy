// Two kernels with a computed address: one that binding breaks, and one that it happens to keep.

module KernelExamples {
  import opened Wrappers
  import opened Kernels
  import opened KernelMeaning
  import opened KernelBinding
  import opened KernelInvocation
  import opened KernelRuns
  import opened KernelEscapes

  const WORD: ValueType := Integer(32)

  // A load reads the word that 1 + 0 addresses; node `result` is exported.
  function Reader(result: nat): Dfg {
    Dfg(map[0 := Node(Add, WORD, [WORD, WORD], None), 1 := Node(Load, WORD, [WORD], None)],
        map[0 := Edge(0, 1, 0, DataEdge(0, None))], map[], map[0 := Constant(WORD, 1), 1 := Constant(WORD, 0)],
        map[0 := LiveOut(WORD, result)], map[(0, 0) := ConstantRef(0), (0, 1) := ConstantRef(1)])
  }

  lemma ReaderIsWellFormed(result: nat)
    requires result < 2
    ensures WellFormed(Reader(result)) && Unlabelled(Reader(result))
    ensures 0 in Reader(result).nodes && Reader(result).nodes[0].opcode == Add
    ensures 1 in Reader(result).nodes && Reader(result).nodes[1].opcode == Load
    ensures Reader(result).nodes.Keys == {0, 1}
  {
  }

  lemma ReaderShape(result: nat)
    ensures var source := Reader(result);
      && source.nodes.Keys == {0, 1} && source.edges == map[0 := Edge(0, 1, 0, DataEdge(0, None))]
      && source.liveOuts == map[0 := LiveOut(WORD, result)]
      && source.bindings == map[(0, 0) := ConstantRef(0), (0, 1) := ConstantRef(1)]
      && source.nodes[0].opcode == Add && source.nodes[1].opcode == Load
  {
  }

  // The address, whatever addition gives.
  function Sum(env: Environment): nat {
    env.compute(Add, [1, 0])
  }

  lemma ReaderOperands(result: nat, env: Environment, m: Machine)
    requires result < 2
    ensures Operands(Reader(result), env, m, 0) == [1, 0] && Operands(Reader(result), env, m, 1) == [At(m.now, 0)]
  {
    var source := Reader(result);
    assert OperandValue(source, env, m, 0, 0) == 1 && OperandValue(source, env, m, 0, 1) == 0;
    assert Feeds(source.edges[0], 1, 0);
    assert OperandValue(source, env, m, 1, 0) == At(m.now, 0);
  }

  // What one iteration computes.
  function Computed(env: Environment, m: Machine): map<nat, nat> {
    m.now[0 := Sum(env)][1 := LoadWord(m.memory, Sum(env))]
  }

  lemma AddFires(dfg: Dfg, env: Environment, m: Machine)
    requires 0 in dfg.nodes && dfg.nodes[0].opcode == Add && Operands(dfg, env, m, 0) == [1, 0]
    ensures Issue(dfg, env, m, 0) == m.(now := m.now[0 := Sum(env)])
  {
    hide Operands;
  }

  lemma LoadFires(dfg: Dfg, env: Environment, m: Machine)
    requires 1 in dfg.nodes && dfg.nodes[1].opcode == Load && Operands(dfg, env, m, 1) == [At(m.now, 0)]
    ensures Issue(dfg, env, m, 1) == m.(now := m.now[1 := LoadWord(m.memory, At(m.now, 0))])
  {
    hide Operands;
  }

  lemma BothFire(dfg: Dfg, env: Environment, m: Machine)
    requires 0 in dfg.nodes && dfg.nodes[0].opcode == Add && Operands(dfg, env, m, 0) == [1, 0]
    requires 1 in dfg.nodes && dfg.nodes[1].opcode == Load
    requires forall m' :: Operands(dfg, env, m', 1) == [At(m'.now, 0)]
    ensures IssueAll(dfg, env, m, [0, 1]) == m.(now := Computed(env, m))
  {
    hide Operands, Issue;
    AddFires(dfg, env, m);
    LoadFires(dfg, env, m.(now := m.now[0 := Sum(env)]));
    assert [0, 1][..1] == [0] && [0][..0] == [];
    assert IssueAll(dfg, env, m, []) == m;
    assert IssueAll(dfg, env, m, [0]) == Issue(dfg, env, m, 0);
  }

  lemma SourcePass(result: nat, env: Environment, m: Machine)
    requires result < 2
    ensures IssueAll(Reader(result), env, m, [0, 1]) == m.(now := Computed(env, m))
  {
    ReaderIsWellFormed(result);
    ReaderOperands(result, env, m);
    forall m'
      ensures Operands(Reader(result), env, m', 1) == [At(m'.now, 0)]
    {
      ReaderOperands(result, env, m');
    }
    hide Operands, Reader;
    BothFire(Reader(result), env, m);
  }

  // ----- Any bound graph of it -----

  // A bound graph on a scratchpad of two words: the second is the output's.
  ghost predicate BoundReader(result: nat, bound: Dfg, layout: KernelLayout) {
    Specialises(Reader(result), bound, map[], layout) && layout.depth == 2
  }

  lemma NewStore(source: Dfg, bound: Dfg, output: OutputBinding)
    requires OutputStored(source, bound, output)
    ensures output.store !in source.nodes && output.store in bound.nodes
  {
  }

  lemma BoundLayout(result: nat, bound: Dfg, layout: KernelLayout)
    requires BoundReader(result, bound, layout) && result < 2
    ensures layout.outputBase == 1 && |layout.outputs| == 1 && layout.outputs[0].address == 1
    ensures layout.outputs[0].store !in {0, 1} && SourceOf(Reader(result), layout, 0) == result
    ensures OutputStored(Reader(result), bound, layout.outputs[0])
  {
    hide ValuesKept, ProvidersKept;
    ReaderShape(result);
    hide Reader, OutputStored;
    assert 0 in Reader(result).liveOuts;
    var j :| 0 <= j < |layout.outputs| && layout.outputs[j].output == 0;
    assert forall i :: 0 <= i < |layout.outputs| ==> layout.outputs[i].output in Reader(result).liveOuts;
    assert |layout.outputs| >= 2 ==> layout.outputs[0].output < layout.outputs[1].output;
    assert OutputStored(Reader(result), bound, layout.outputs[0]);
    NewStore(Reader(result), bound, layout.outputs[0]);
  }

  ghost function OrderFor(layout: KernelLayout): seq<nat> {
    if |layout.outputs| == 1 then [0, 1, layout.outputs[0].store] else []
  }

  lemma OrderIsComplete(result: nat, bound: Dfg, layout: KernelLayout)
    requires BoundReader(result, bound, layout) && result < 2
    ensures Complete(Reader(result), layout, OrderFor(layout))
    ensures Originals(OrderFor(layout), Reader(result)) == [0, 1]
  {
    BoundLayout(result, bound, layout);
    ReaderShape(result);
    hide *;
    OrderIsOrderly(Reader(result), layout, result);
    NothingMissing(Reader(result), layout);
  }

  lemma OrderIsOrderly(source: Dfg, layout: KernelLayout, result: nat)
    requires source.nodes.Keys == {0, 1} && |layout.outputs| == 1 && layout.outputs[0].store !in {0, 1}
    requires SourceOf(source, layout, 0) == result < 2
    ensures Orderly(source, layout, OrderFor(layout)) && Originals(OrderFor(layout), source) == [0, 1]
  {
    hide SourceOf;
    var order, store := OrderFor(layout), layout.outputs[0].store;
    assert order == [0, 1, store];
    assert StoreOf(layout, store);
    assert order[..2] == [0, 1];
    assert [0, 1][..1] == [0] && [0][..0] == [];
    assert Originals([], source) == [] && Originals([0], source) == [0];
    assert Originals([0, 1], source) == [0, 1];
  }

  lemma NothingMissing(source: Dfg, layout: KernelLayout)
    requires source.nodes.Keys == {0, 1} && |layout.outputs| == 1 && layout.outputs[0].store !in {0, 1}
    requires source.edges == map[0 := Edge(0, 1, 0, DataEdge(0, None))] && Orderly(source, layout, OrderFor(layout))
    ensures Complete(source, layout, OrderFor(layout))
  {
    hide Orderly;
    var order := OrderFor(layout);
    assert order == [0, 1, layout.outputs[0].store];
    forall n | n in source.nodes
      ensures n in order
    {
      assert n in source.nodes.Keys;
    }
    assert order[..1] == [0];
  }

  lemma BoundPass(result: nat, bound: Dfg, env: Environment, layout: KernelLayout, m: Machine)
    requires BoundReader(result, bound, layout) && result < 2 && env.scalars == map[] && |m.memory| == 2
    ensures IssueAll(bound, env, m, OrderFor(layout)) ==
      m.(now := Computed(env, m), memory := m.memory[1 := At(Computed(env, m), result)])
  {
    hide *;
    BoundLayout(result, bound, layout);
    ReaderIsWellFormed(result);
    BoundOperands(result, bound, env, layout, m);
    forall m'
      ensures Operands(bound, env, m', 1) == [At(m'.now, 0)]
    {
      BoundOperands(result, bound, env, layout, m');
    }
    BothFire(bound, env, m);
    StoreLast(result, bound, env, layout, m.(now := Computed(env, m)));
    ThreeIssued(bound, env, m, layout);
  }

  lemma StoreLast(result: nat, bound: Dfg, env: Environment, layout: KernelLayout, m: Machine)
    requires |layout.outputs| == 1 && OutputStored(Reader(result), bound, layout.outputs[0])
    requires layout.outputs[0].address == 1 && SourceOf(Reader(result), layout, 0) == result && |m.memory| == 2
    ensures Issue(bound, env, m, layout.outputs[0].store) == m.(memory := m.memory[1 := At(m.now, result)])
  {
    hide Issue, Reader, OutputStored, SourceOf, At;
    StoreFires(Reader(result), bound, env, layout, m, 0);
  }

  lemma ThreeIssued(dfg: Dfg, env: Environment, m: Machine, layout: KernelLayout)
    requires |layout.outputs| == 1
    ensures IssueAll(dfg, env, m, OrderFor(layout)) == Issue(dfg, env, IssueAll(dfg, env, m, [0, 1]), layout.outputs[0].store)
  {
    hide IssueAll, Issue;
    var order := OrderFor(layout);
    assert order == [0, 1, layout.outputs[0].store] && order[..2] == [0, 1];
    LastIssued(dfg, env, m, order);
  }

  lemma BoundOperands(result: nat, bound: Dfg, env: Environment, layout: KernelLayout, m: Machine)
    requires BoundReader(result, bound, layout) && result < 2 && env.scalars == map[]
    ensures 0 in bound.nodes && bound.nodes[0].opcode == Add && 1 in bound.nodes && bound.nodes[1].opcode == Load
    ensures Operands(bound, env, m, 0) == [1, 0] && Operands(bound, env, m, 1) == [At(m.now, 0)]
  {
    ReaderIsWellFormed(result);
    ReaderOperands(result, env, m);
    hide Operands, Reader, Specialises;
    SameOperands(Reader(result), bound, env, layout, m, m, 0);
    SameOperands(Reader(result), bound, env, layout, m, m, 1);
  }

  // ----- The sum is exported: broken -----

  /** Addition of 32-bit words; the other operations do not matter. */
  ghost function Adding(): Environment {
    Environment(map[], (op, operands) => if op == Add && |operands| == 2 then (operands[0] + operands[1]) % ID_VALUES else 0)
  }

  /**
   * The load addresses the output's own word. With every word cleared at the start, the source always loads 0; the bound kernel
   * loads the sum from the second iteration on.
   */
  lemma ComputedAddressEscapes(bound: Dfg, layout: KernelLayout)
    requires BoundReader(0, bound, layout)
    ensures Complete(Reader(0), layout, OrderFor(layout))
    ensures Run(Reader(0), Adding(), Originals(OrderFor(layout), Reader(0)), [0, 0], 2).past ==
            [map[0 := 1, 1 := 0], map[0 := 1, 1 := 0]]
    ensures Run(bound, Adding(), OrderFor(layout), [0, 0], 2).past == [map[0 := 1, 1 := 0], map[0 := 1, 1 := 1]]
  {
    hide *;
    OrderIsComplete(0, bound, layout);
    SourceTwice();
    BoundTwice(bound, layout);
  }

  lemma SourceTwice()
    ensures Run(Reader(0), Adding(), [0, 1], [0, 0], 2).past == [map[0 := 1, 1 := 0], map[0 := 1, 1 := 0]]
  {
    var start, first := Machine([], map[], [0, 0]), Machine([map[0 := 1, 1 := 0]], map[], [0, 0]);
    AddingIs(start, first, first.(memory := [0, 1]));
    hide *;
    SourcePass(0, Adding(), start);
    SourcePass(0, Adding(), first);
    TwoIterations(Reader(0), Adding(), [0, 1], [0, 0], map[0 := 1, 1 := 0], [0, 0], map[0 := 1, 1 := 0]);
  }

  lemma BoundTwice(bound: Dfg, layout: KernelLayout)
    requires BoundReader(0, bound, layout)
    ensures Run(bound, Adding(), OrderFor(layout), [0, 0], 2).past == [map[0 := 1, 1 := 0], map[0 := 1, 1 := 1]]
  {
    var start, stored := Machine([], map[], [0, 0]), Machine([map[0 := 1, 1 := 0]], map[], [0, 1]);
    AddingIs(start, start, stored);
    hide *;
    BoundPass(0, bound, Adding(), layout, start);
    BoundPass(0, bound, Adding(), layout, stored);
    TwoIterations(bound, Adding(), OrderFor(layout), [0, 0], map[0 := 1, 1 := 0], [0, 1], map[0 := 1, 1 := 1]);
  }

  lemma AddingIs(start: Machine, first: Machine, stored: Machine)
    requires start.now == first.now == stored.now == map[]
    requires start.memory == first.memory == [0, 0] && stored.memory == [0, 1]
    ensures Adding().scalars == map[] && Sum(Adding()) == 1
    ensures Computed(Adding(), start) == Computed(Adding(), first) == map[0 := 1, 1 := 0]
    ensures Computed(Adding(), stored) == map[0 := 1, 1 := 1]
    ensures start.memory[1 := At(Computed(Adding(), start), 0)] == [0, 1]
  {
    assert Sum(Adding()) == 1;
    hide Adding, Sum;
  }

  lemma TwoIterations(dfg: Dfg, env: Environment, order: seq<nat>, memory: seq<nat>, now: map<nat, nat>, after: seq<nat>,
                      later: map<nat, nat>)
    requires IssueAll(dfg, env, Machine([], map[], memory), order) == Machine([], now, after)
    requires IssueAll(dfg, env, Machine([now], map[], after), order).past == [now]
    requires IssueAll(dfg, env, Machine([now], map[], after), order).now == later
    ensures Run(dfg, env, order, memory, 2).past == [now, later]
  {
    hide IssueAll;
    assert Run(dfg, env, order, memory, 0) == Machine([], map[], memory);
    assert Run(dfg, env, order, memory, 1) == Machine([now], map[], after);
  }

  lemma ReaderIsBindable(invocation: Invocation)
    requires invocation == Invocation(2, [], [])
    ensures IdsFit(Reader(0)) && Room(Reader(0)) && Acceptable(Reader(0), invocation, 2, 32) && TypesFit(Reader(0), 32)
    ensures RegionClear(Reader(0), invocation, 2) && Unlabelled(Reader(0)) && PreloadClear(invocation, 1, 1)
    ensures |Reader(0).liveOuts| == 1
  {
    hide *;
    ReaderIsWellFormed(0);
    ReaderHasRoom();
    ReaderInvoked(invocation);
    ReaderStaysClear(invocation);
    AcceptableIs(Reader(0), invocation, 2, 32);
  }

  lemma AcceptableIs(source: Dfg, invocation: Invocation, depth: nat, width: nat)
    requires WellFormed(source) && NamesDistinct(source) && InvocationValid(source, invocation, depth, width)
    requires |source.liveOuts| <= depth
    ensures Acceptable(source, invocation, depth, width)
  {
    hide WellFormed, NamesDistinct, InvocationValid;
  }

  lemma ReaderInvoked(invocation: Invocation)
    requires invocation == Invocation(2, [], [])
    ensures InvocationValid(Reader(0), invocation, 2, 32)
  {
  }

  lemma ReaderHasRoom()
    ensures IdsFit(Reader(0)) && Room(Reader(0)) && NamesDistinct(Reader(0)) && |Reader(0).liveOuts| == 1
    ensures TypesFit(Reader(0), 32) && Unlabelled(Reader(0))
  {
    assert |Reader(0).externals| == 0 && |Reader(0).liveOuts| == 1;
  }

  lemma ReaderStaysClear(invocation: Invocation)
    requires invocation == Invocation(2, [], []) && |Reader(0).liveOuts| == 1
    ensures RegionClear(Reader(0), invocation, 2) && PreloadClear(invocation, 1, 1)
  {
    ReaderShape(0);
    hide Reader;
  }

  lemma ReaderIsBound(invocation: Invocation, dfg: Dfg, layout: KernelLayout)
    requires invocation == Invocation(2, [], []) && layout.depth == 2
    requires Specialises(Reader(0), dfg, Scalars(Reader(0), invocation), layout)
    ensures BoundReader(0, dfg, layout)
  {
    hide Specialises;
    assert Scalars(Reader(0), invocation) == map[];
  }

  /** The binder accepts that kernel, and whatever it makes of it behaves differently. */
  method ComputedAddressIsAccepted() returns (status: BindingStatus, bound: Option<BoundKernel>)
    ensures status == Success && bound.Some? && BoundReader(0, bound.value.dfg, bound.value.layout)
    ensures ValuesDiffer(bound.value.dfg, bound.value.layout)
  {
    var invocation := Invocation(2, [], []);
    ReaderIsBindable(invocation);
    hide *;
    status, bound := Bind(Reader(0), invocation, 2, 32, true);
    ReaderIsBound(invocation, bound.value.dfg, bound.value.layout);
    TheyDiffer(bound.value.dfg, bound.value.layout);
  }

  // Two iterations on a cleared scratchpad give other values than the source's.
  ghost predicate ValuesDiffer(bound: Dfg, layout: KernelLayout) {
    Run(bound, Adding(), OrderFor(layout), [0, 0], 2).past !=
    Run(Reader(0), Adding(), Originals(OrderFor(layout), Reader(0)), [0, 0], 2).past
  }

  lemma TheyDiffer(bound: Dfg, layout: KernelLayout)
    requires BoundReader(0, bound, layout)
    ensures ValuesDiffer(bound, layout)
  {
    ComputedAddressEscapes(bound, layout);
    hide Run, Reader, BoundReader, Adding, OrderFor, Originals;
    assert map[0 := 1, 1 := 0][1] != map[0 := 1, 1 := 1][1];
  }

  // ----- The loaded word is exported: kept -----

  lemma {:induction false} LoadedRun(bound: Dfg, env: Environment, layout: KernelLayout, memory: seq<nat>, n: nat)
    requires BoundReader(1, bound, layout) && env.scalars == map[] && |memory| == 2
    ensures var a, b := Run(Reader(1), env, [0, 1], memory, n), Run(bound, env, OrderFor(layout), memory, n);
      && SameValues(a, b) && a.now == map[] && |a.past| == n && a.memory == memory && |b.memory| == 2
      && b.memory[0] == memory[0] && (Sum(env) == 1 ==> b.memory[1] == memory[1])
      && (n > 0 ==> b.memory[1] == At(b.past[n - 1], 1))
  {
    hide BoundReader, Reader, OrderFor, IssueAll;
    if n > 0 {
      LoadedRun(bound, env, layout, memory, n - 1);
      SourcePass(1, env, Run(Reader(1), env, [0, 1], memory, n - 1));
      BoundPass(1, bound, env, layout, Run(bound, env, OrderFor(layout), memory, n - 1));
    }
  }

  lemma LoadedKept(bound: Dfg, env: Environment, layout: KernelLayout, memory: seq<nat>, n: nat)
    requires BoundReader(1, bound, layout) && env.scalars == map[] && |memory| == 2 == layout.depth
    requires |layout.outputs| == 1 && layout.outputBase == 1 && layout.outputs[0].address == 1
    requires SourceOf(Reader(1), layout, 0) == 1 && Originals(OrderFor(layout), Reader(1)) == [0, 1]
    ensures Kept(Reader(1), bound, env, layout, OrderFor(layout), memory, n)
  {
    hide BoundReader, Reader, OrderFor, Run, Originals, SourceOf;
    LoadedRun(bound, env, layout, memory, n);
  }

  /**
   * Beyond transparent kernels the condition is not exact: this address is computed, and yet the promise holds whatever the
   * operations compute, because the only live-out is the very word that was loaded.
   */
  lemma LoadedResultIsKept(bound: Dfg, layout: KernelLayout)
    requires BoundReader(1, bound, layout)
    ensures MeansTheSame(Reader(1), bound, map[], layout, OrderFor(layout)) && Complete(Reader(1), layout, OrderFor(layout))
    ensures !StaticAddresses(Reader(1)) && Reader(1).liveOuts != map[]
  {
    BoundLayout(1, bound, layout);
    OrderIsComplete(1, bound, layout);
    assert (1, 0) !in Reader(1).bindings && IsMemory(Reader(1).nodes[1]);
    forall env: Environment, memory: seq<nat>, n: nat | env.scalars == map[] && |memory| == layout.depth
      ensures Kept(Reader(1), bound, env, layout, OrderFor(layout), memory, n)
    {
      assert layout.depth == 2;
      LoadedKept(bound, env, layout, memory, n);
    }
  }
}
