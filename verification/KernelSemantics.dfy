// What the steps of a kernel's run amount to: memory operations, and values from earlier iterations.

module KernelSemantics {
  import opened Wrappers
  import opened Kernels

  // ----- Memory -----

  /** A store sets the word at its address, unless its predicate is false or there is no such word. */
  lemma StoreSets(dfg: Dfg, env: Environment, m: Machine, n: nat)
    requires n in dfg.nodes && dfg.nodes[n].opcode == Store && |dfg.nodes[n].operandTypes| >= 2
    ensures var operands, after := Operands(dfg, env, m, n), Issue(dfg, env, m, n);
      && after.past == m.past && after.now == m.now && |after.memory| == |m.memory|
      && (|operands| >= 3 && operands[2] == 0 ==> after == m)
      && (|operands| == 2 || operands[2] != 0 ==>
            forall a :: 0 <= a < |m.memory| ==> after.memory[a] == if a == operands[0] then operands[1] else m.memory[a])
  {
    hide Operands;
  }

  /** A load gives the word at its address, or 0 where there is none, and changes no word. */
  lemma LoadGives(dfg: Dfg, env: Environment, m: Machine, n: nat)
    requires n in dfg.nodes && dfg.nodes[n].opcode == Load
    ensures var operands, after := Operands(dfg, env, m, n), Issue(dfg, env, m, n);
      && after.memory == m.memory && after.past == m.past
      && (|operands| >= 1 && operands[0] < |m.memory| ==> At(after.now, n) == m.memory[operands[0]])
      && (|operands| == 0 || operands[0] >= |m.memory| ==> At(after.now, n) == 0)
      && forall k :: k != n ==> At(after.now, k) == At(m.now, k)
  {
    hide Operands;
  }

  // ----- Boundary values -----

  // The value with this offset.
  ghost predicate Offered(values: seq<BoundaryValue>, offset: nat) {
    exists j :: 0 <= j < |values| && values[j].offset == offset
  }

  ghost predicate OfferedOnce(values: seq<BoundaryValue>) {
    forall j, k :: 0 <= j < k < |values| ==> values[j].offset != values[k].offset
  }

  ghost function Offsets(values: seq<BoundaryValue>): set<nat> {
    if values == [] then {} else Offsets(values[1..]) + {values[0].offset}
  }

  lemma {:induction false} OffsetsAreOffered(values: seq<BoundaryValue>)
    ensures forall x :: x in Offsets(values) <==> Offered(values, x)
  {
    if values != [] {
      OffsetsAreOffered(values[1..]);
      forall x
        ensures Offered(values, x) <==> Offered(values[1..], x) || values[0].offset == x
      {
        OfferedFurther(values, x);
      }
    }
  }

  lemma OfferedFurther(values: seq<BoundaryValue>, x: nat)
    requires values != []
    ensures Offered(values, x) <==> Offered(values[1..], x) || values[0].offset == x
  {
    if Offered(values, x) && values[0].offset != x {
      var j :| 0 <= j < |values| && values[j].offset == x;
      assert values[1..][j - 1].offset == x;
    }
    if Offered(values[1..], x) {
      var j :| 0 <= j < |values[1..]| && values[1..][j].offset == x;
      assert values[j + 1].offset == x;
    }
  }

  lemma {:induction false} OffsetsCount(values: seq<BoundaryValue>)
    requires OfferedOnce(values)
    ensures |Offsets(values)| == |values|
  {
    if values != [] {
      OffsetsCount(values[1..]);
      OffsetsAreOffered(values[1..]);
      assert !Offered(values[1..], values[0].offset);
    }
  }

  lemma {:induction false} UpToCount(n: nat, s: set<nat>)
    requires forall x :: x in s ==> x < n
    ensures |s| <= n && (|s| == n ==> forall x: nat :: x < n ==> x in s)
  {
    if n == 0 {
      assert s == {};
    } else {
      var rest := s - {n - 1};
      UpToCount(n - 1, rest);
      assert s == if n - 1 in s then rest + {n - 1} else rest;
    }
  }

  lemma {:induction false} AllUpTo(n: nat, s: set<nat>)
    requires forall x: nat :: x in s <==> x < n
    ensures |s| == n
  {
    if n > 0 {
      assert n - 1 in s;
      AllUpTo(n - 1, s - {n - 1});
    } else {
      assert s == {};
    }
  }

  /** A value edge is complete exactly when each iteration before its producer's first has one known value, and no other has any. */
  lemma CompleteExactly(dfg: Dfg, edge: Edge)
    requires !edge.info.MemoryEdge? && edge.distance > 0 && edge.info.boundary.Some?
    ensures var values := edge.info.boundary.value;
      BoundaryComplete(dfg, edge) <==>
      && (forall j :: 0 <= j < |values| ==> Known(dfg, values[j].value))
      && OfferedOnce(values)
      && (forall i: nat :: Offered(values, i) <==> i < edge.distance)
  {
    var values := edge.info.boundary.value;
    hide Known, Offered;
    if OfferedOnce(values) {
      OffsetsFill(values, edge.distance);
    }
  }

  lemma OffsetsFill(values: seq<BoundaryValue>, distance: nat)
    requires OfferedOnce(values)
    ensures |values| == distance && (forall j :: 0 <= j < |values| ==> values[j].offset < distance) <==>
            forall i: nat :: Offered(values, i) <==> i < distance
  {
    hide Offsets, OfferedOnce;
    OffsetsCount(values);
    OffsetsAreOffered(values);
    if |values| == distance && forall j :: 0 <= j < |values| ==> values[j].offset < distance {
      UpToCount(distance, Offsets(values));
    }
    if forall i: nat :: Offered(values, i) <==> i < distance {
      AllUpTo(distance, Offsets(values));
      forall j | 0 <= j < |values|
        ensures values[j].offset < distance
      {
        assert Offered(values, values[j].offset);
      }
    }
  }

  /** The value found for an iteration is the one offered for it. */
  lemma {:induction false} FoundForIteration(values: seq<BoundaryValue>, iteration: nat)
    ensures BoundaryRef(values, iteration).Some? <==> Offered(values, iteration)
    ensures BoundaryRef(values, iteration).Some? ==>
      exists j :: 0 <= j < |values| && values[j] == BoundaryValue(iteration, BoundaryRef(values, iteration).value)
  {
    if values != [] && values[0].offset != iteration {
      FoundForIteration(values[1..], iteration);
      if Offered(values, iteration) {
        var j :| 0 <= j < |values| && values[j].offset == iteration;
        assert values[1..][j - 1].offset == iteration;
      }
      if BoundaryRef(values, iteration).Some? {
        var j :| 0 <= j < |values[1..]| &&
                 values[1..][j] == BoundaryValue(iteration, BoundaryRef(values[1..], iteration).value);
        assert values[j + 1] == values[1..][j];
      }
    } else if values != [] {
      assert values[0] == BoundaryValue(iteration, BoundaryRef(values, iteration).value);
    }
  }

  /** An operand fed by an edge has the producer's value of `distance` iterations ago, and before that the boundary value. */
  lemma FedOperand(dfg: Dfg, env: Environment, m: Machine, n: nat, k: nat, e: nat)
    requires e in dfg.edges && Feeds(dfg.edges[e], n, k) && (n, k) !in dfg.bindings
    requires forall f :: f in dfg.edges && Feeds(dfg.edges[f], n, k) ==> f == e
    requires BoundaryComplete(dfg, dfg.edges[e])
    ensures var edge, value := dfg.edges[e], OperandValue(dfg, env, m, n, k);
      && (edge.distance == 0 ==> value == At(m.now, edge.src))
      && (0 < edge.distance <= |m.past| ==> value == At(m.past[|m.past| - edge.distance], edge.src))
      && (edge.distance > |m.past| ==>
            edge.info.boundary.Some? &&
            exists j :: 0 <= j < |edge.info.boundary.value| && edge.info.boundary.value[j].offset == |m.past| &&
                        value == RefValue(dfg, env, edge.info.boundary.value[j].value))
  {
    var edge := dfg.edges[e];
    assert OperandValue(dfg, env, m, n, k) == EdgeValue(dfg, env, m, edge);
    if edge.distance > |m.past| {
      CompleteExactly(dfg, edge);
      FoundForIteration(edge.info.boundary.value, |m.past|);
    }
  }
}
