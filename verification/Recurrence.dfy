// Recurrence bound: in-place longest-path relaxation, its cycle witnesses and the binary search over II.

module Recurrence {
  import opened Wrappers
  import opened Resources
  import opened Ordering

  /** t[dst] must be at least t[src] + separation - distance * II. */
  datatype Constraint = Constraint(edge: nat, src: nat, dst: nat, distance: nat, separation: nat)

  datatype Witness = Witness(edges: seq<nat>, totalSeparation: nat, totalDistance: nat)

  datatype Feasibility = Feasibility(feasible: bool, cycle: Option<Witness>)

  function Weight(c: Constraint, ii: int): int {
    c.separation - c.distance * ii
  }

  predicate InGraph(constraints: seq<Constraint>, n: nat) {
    forall i :: 0 <= i < |constraints| ==> constraints[i].src < n && constraints[i].dst < n
  }

  predicate Meets(times: seq<int>, c: Constraint, ii: int)
    requires c.src < |times| && c.dst < |times|
  {
    times[c.dst] >= times[c.src] + Weight(c, ii)
  }

  ghost predicate Schedules(times: seq<int>, constraints: seq<Constraint>, n: nat, ii: int)
    requires InGraph(constraints, n)
  {
    |times| == n && forall i :: 0 <= i < |constraints| ==> Meets(times, constraints[i], ii)
  }

  /** Integer issue times exist. */
  ghost predicate Feasible(constraints: seq<Constraint>, n: nat, ii: int)
    requires InGraph(constraints, n)
  {
    exists times :: Schedules(times, constraints, n, ii)
  }

  // ----- Cycles -----

  function Sum<T>(f: T -> nat, s: seq<T>): nat {
    if s == [] then 0 else Sum(f, s[..|s| - 1]) + f(s[|s| - 1])
  }

  function SeparationOf(c: Constraint): nat {
    c.separation
  }

  function DistanceOf(c: Constraint): nat {
    c.distance
  }

  function EdgeOf(c: Constraint): nat {
    c.edge
  }

  function TotalSeparation(cs: seq<Constraint>): nat {
    Sum(SeparationOf, cs)
  }

  function TotalDistance(cs: seq<Constraint>): nat {
    Sum(DistanceOf, cs)
  }

  lemma {:induction false} SumConcat<T>(f: T -> nat, a: seq<T>, b: seq<T>)
    ensures Sum(f, a + b) == Sum(f, a) + Sum(f, b)
  {
    if b == [] {
      assert a + b == a;
    } else {
      assert (a + b)[..|a + b| - 1] == a + b[..|b| - 1];
      SumConcat(f, a, b[..|b| - 1]);
    }
  }

  lemma SumOne<T>(f: T -> nat, x: T)
    ensures Sum(f, [x]) == f(x)
  {
    assert [x][..0] == [];
  }

  // Sorting does not change a sum.
  lemma {:induction false} SumInsert<T(!new)>(f: T -> nat, key: T -> nat, x: T, s: seq<T>)
    ensures Sum(f, InsertBy(key, x, s)) == Sum(f, s) + f(x)
  {
    SumOne(f, x);
    if s == [] || key(x) < key(s[0]) {
      SumConcat(f, [x], s);
    } else {
      assert s == [s[0]] + s[1..];
      SumInsert(f, key, x, s[1..]);
      SumConcat(f, [s[0]], s[1..]);
      SumConcat(f, [s[0]], InsertBy(key, x, s[1..]));
    }
  }

  lemma {:induction false} SumSort<T(!new)>(f: T -> nat, key: T -> nat, s: seq<T>)
    ensures Sum(f, SortBy(key, s)) == Sum(f, s)
  {
    if s != [] {
      SumSort(f, key, s[..|s| - 1]);
      SumInsert(f, key, s[|s| - 1], SortBy(key, s[..|s| - 1]));
    }
  }

  // Read backwards: each constraint ends where the one before it starts.
  ghost predicate Chain(cs: seq<Constraint>, first: nat, last: nat) {
    if cs == [] then first == last
    else cs[|cs| - 1].src == last && Chain(cs[..|cs| - 1], first, cs[|cs| - 1].dst)
  }

  ghost predicate Cycle(cs: seq<Constraint>, constraints: seq<Constraint>) {
    && cs != [] && Chain(cs, cs[0].dst, cs[0].dst)
    && forall c :: c in cs ==> c in constraints
  }

  lemma {:induction false} ChainBound(times: seq<int>, cs: seq<Constraint>, first: nat, last: nat, n: nat, ii: int)
    requires |times| == n && first < n && last < n && Chain(cs, first, last)
    requires forall c :: c in cs ==> c.src < n && c.dst < n && Meets(times, c, ii)
    ensures times[first] >= times[last] + TotalSeparation(cs) - TotalDistance(cs) * ii
  {
    if cs != [] {
      var init, c := cs[..|cs| - 1], cs[|cs| - 1];
      assert c in cs;
      ChainBound(times, init, first, c.dst, n, ii);
      assert (TotalDistance(init) + c.distance) * ii == TotalDistance(init) * ii + c.distance * ii;
    }
  }

  // A cycle longer than its distance allows rules out any schedule.
  lemma CycleRefutes(constraints: seq<Constraint>, n: nat, ii: int, cs: seq<Constraint>)
    requires InGraph(constraints, n) && Cycle(cs, constraints)
    requires TotalSeparation(cs) > TotalDistance(cs) * ii
    ensures !Feasible(constraints, n, ii)
  {
    assert cs[0] in cs;
    if Feasible(constraints, n, ii) {
      var times :| Schedules(times, constraints, n, ii);
      ChainBound(times, cs, cs[0].dst, cs[0].dst, n, ii);
    }
  }

  // ----- One evaluation -----

  /** The labels of the relaxation. */
  datatype Labels = Labels(
    longest: seq<int>,
    predecessorNode: seq<Option<nat>>,
    predecessorConstraint: seq<Option<nat>>)

  // For the proofs: the labels, with the step and the round that last updated each vertex.
  datatype Relaxation = Relaxation(
    longest: seq<int>,
    predecessorNode: seq<Option<nat>>,
    predecessorConstraint: seq<Option<nat>>,
    stamp: seq<nat>,
    round: seq<nat>)

  ghost function LabelsOf(r: Relaxation): Labels {
    Labels(r.longest, r.predecessorNode, r.predecessorConstraint)
  }

  ghost predicate Shaped(r: Relaxation, n: nat) {
    |r.longest| == |r.predecessorNode| == |r.predecessorConstraint| == |r.stamp| == |r.round| == n
  }

  // The label of v is not above what its predecessor now offers, and below if that one moved since;
  // the predecessor was updated no earlier than the round before.
  ghost predicate Justified(r: Relaxation, constraints: seq<Constraint>, n: nat, ii: int, v: nat)
    requires InGraph(constraints, n) && Shaped(r, n) && v < n
  {
    && (r.round[v] > 0 ==> r.predecessorConstraint[v].Some?)
    && (r.predecessorNode[v].Some? ==> r.predecessorConstraint[v].Some?)
    && (r.predecessorConstraint[v].Some? ==>
          && r.predecessorConstraint[v].value < |constraints|
          && var c := constraints[r.predecessorConstraint[v].value];
          && c.dst == v && r.predecessorNode[v] == Some(c.src)
          && r.longest[v] <= r.longest[c.src] + Weight(c, ii)
          && (r.stamp[c.src] >= r.stamp[v] ==> r.longest[v] < r.longest[c.src] + Weight(c, ii))
          && r.round[c.src] + 1 >= r.round[v])
  }

  ghost predicate Kept(r: Relaxation, constraints: seq<Constraint>, n: nat, ii: int, current: nat, clock: nat, v: nat)
    requires InGraph(constraints, n) && Shaped(r, n) && v < n
  {
    r.stamp[v] <= clock && r.round[v] <= current && Justified(r, constraints, n, ii, v)
  }

  // A constraint still violated has a source updated since it was last looked at.
  ghost predicate Pending(r: Relaxation, constraints: seq<Constraint>, n: nat, ii: int, current: nat, index: nat, j: nat)
    requires InGraph(constraints, n) && Shaped(r, n) && j < |constraints|
  {
    !Meets(r.longest, constraints[j], ii) ==>
      r.round[constraints[j].src] >= (if j < index then current else current - 1)
  }

  ghost predicate Relaxing(r: Relaxation, constraints: seq<Constraint>, n: nat, ii: int, current: nat, index: nat,
                           clock: nat)
    requires InGraph(constraints, n)
  {
    && Shaped(r, n)
    && (forall v :: 0 <= v < n ==> Kept(r, constraints, n, ii, current, clock, v))
    && (forall j :: 0 <= j < |constraints| ==> Pending(r, constraints, n, ii, current, index, j))
  }

  function Relaxed(r: Relaxation, c: Constraint, index: nat, ii: int, current: nat, clock: nat): Relaxation
    requires c.src < |r.longest| && c.dst < |r.longest|
    requires |r.longest| == |r.predecessorNode| == |r.predecessorConstraint| == |r.stamp| == |r.round|
  {
    Relaxation(r.longest[c.dst := r.longest[c.src] + Weight(c, ii)], r.predecessorNode[c.dst := Some(c.src)],
               r.predecessorConstraint[c.dst := Some(index)], r.stamp[c.dst := clock + 1], r.round[c.dst := current])
  }

  lemma RelaxStep(r: Relaxation, constraints: seq<Constraint>, n: nat, ii: int, current: nat, index: nat, clock: nat)
    requires InGraph(constraints, n) && index < |constraints| && 0 < current
    requires Relaxing(r, constraints, n, ii, current, index, clock)
    requires !Meets(r.longest, constraints[index], ii)
    ensures Relaxing(Relaxed(r, constraints[index], index, ii, current, clock), constraints, n, ii, current, index + 1,
                     clock + 1)
  {
    hide Weight;
    var c := constraints[index];
    var r' := Relaxed(r, c, index, ii, current, clock);
    var clock', index' := clock + 1, index + 1;
    assert Pending(r, constraints, n, ii, current, index, index);
    assert Kept(r, constraints, n, ii, current, clock, c.src);
    forall v | 0 <= v < n
      ensures Kept(r', constraints, n, ii, current, clock', v)
    {
      assert Kept(r, constraints, n, ii, current, clock, v);
    }
    forall j | 0 <= j < |constraints|
      ensures Pending(r', constraints, n, ii, current, index', j)
    {
      assert Pending(r, constraints, n, ii, current, index, j);
    }
  }

  // ----- Following predecessors -----

  function Back(r: Relaxation, v: nat, steps: nat): Option<nat>
  {
    if steps == 0 then Some(v)
    else
      var w := Back(r, v, steps - 1);
      if w.None? || w.value >= |r.predecessorNode| then None else r.predecessorNode[w.value]
  }

  // A vertex updated in round k can be followed back k steps.
  lemma {:induction false} BackExists(r: Relaxation, constraints: seq<Constraint>, n: nat, ii: int, current: nat,
                                      index: nat, clock: nat, v: nat, steps: nat)
    requires InGraph(constraints, n) && Relaxing(r, constraints, n, ii, current, index, clock)
    requires v < n && steps <= r.round[v]
    ensures Back(r, v, steps).Some? && Back(r, v, steps).value < n
    ensures r.round[Back(r, v, steps).value] + steps >= r.round[v]
  {
    hide Weight, Pending;
    if steps > 0 {
      BackExists(r, constraints, n, ii, current, index, clock, v, steps - 1);
      assert Kept(r, constraints, n, ii, current, clock, Back(r, v, steps - 1).value);
    }
  }

  lemma {:induction false} BackAdds(r: Relaxation, v: nat, a: nat, b: nat)
    ensures Back(r, v, a + b) == (if Back(r, v, a).None? then None else Back(r, Back(r, v, a).value, b))
  {
    if b > 0 {
      BackAdds(r, v, a, b - 1);
      assert a + b - 1 == a + (b - 1);
    }
  }

  // The constraints crossed on the way back.
  function Crossed(r: Relaxation, constraints: seq<Constraint>, v: nat, steps: nat): seq<Constraint> {
    if steps == 0 then []
    else
      var w := Back(r, v, steps - 1);
      Crossed(r, constraints, v, steps - 1) +
      (if w.Some? && w.value < |r.predecessorConstraint| && r.predecessorConstraint[w.value].Some? &&
          r.predecessorConstraint[w.value].value < |constraints|
       then [constraints[r.predecessorConstraint[w.value].value]] else [])
  }

  // Following predecessors back, labels are bounded by what was crossed, strictly unless time ran backwards too.
  lemma {:induction false} BackWeighs(r: Relaxation, constraints: seq<Constraint>, n: nat, ii: int, current: nat,
                                      index: nat, clock: nat, v: nat, steps: nat)
    requires InGraph(constraints, n) && Relaxing(r, constraints, n, ii, current, index, clock) && v < n
    requires Back(r, v, steps).Some?
    ensures Back(r, v, steps).value < n
    ensures var w, cs := Back(r, v, steps).value, Crossed(r, constraints, v, steps);
      && |cs| == steps && Chain(cs, v, w) && (forall c :: c in cs ==> c in constraints)
      && (steps > 0 ==> cs[0].dst == v)
      && r.longest[v] <= r.longest[w] + TotalSeparation(cs) - TotalDistance(cs) * ii
      && (|| r.longest[v] < r.longest[w] + TotalSeparation(cs) - TotalDistance(cs) * ii
          || (steps == 0 && v == w) || r.stamp[w] < r.stamp[v])
  {
    hide Pending, Weight;
    if steps > 0 {
      BackWeighs(r, constraints, n, ii, current, index, clock, v, steps - 1);
      var before, init := Back(r, v, steps - 1).value, Crossed(r, constraints, v, steps - 1);
      assert Kept(r, constraints, n, ii, current, clock, before);
      BackCrosses(r, constraints, n, ii, before);
      var c := constraints[r.predecessorConstraint[before].value];
      var cs := Crossed(r, constraints, v, steps);
      assert cs == init + [c] && cs[..|init|] == init;
      WeightAdds(cs, ii);
    }
  }

  lemma WeightAdds(cs: seq<Constraint>, ii: int)
    requires cs != []
    ensures var init := cs[..|cs| - 1];
      TotalSeparation(cs) - TotalDistance(cs) * ii ==
      TotalSeparation(init) - TotalDistance(init) * ii + Weight(cs[|cs| - 1], ii)
  {
    var init, c := cs[..|cs| - 1], cs[|cs| - 1];
    assert (TotalDistance(init) + c.distance) * ii == TotalDistance(init) * ii + c.distance * ii;
  }

  lemma BackCrosses(r: Relaxation, constraints: seq<Constraint>, n: nat, ii: int, v: nat)
    requires InGraph(constraints, n) && Shaped(r, n) && v < n && Justified(r, constraints, n, ii, v)
    requires r.predecessorNode[v].Some?
    ensures r.predecessorConstraint[v].Some? && r.predecessorConstraint[v].value < |constraints|
  {
  }

  // ----- Witnesses -----

  // The cycle crossed by going `steps` back from v and arriving at v again, for the first time.
  ghost predicate Circuit(r: Relaxation, v: nat, steps: nat) {
    && 0 < steps && Back(r, v, steps) == Some(v)
    && forall k :: 0 < k < steps ==> Back(r, v, k) != Some(v)
  }

  /** A cycle of distinct constraints whose separation exceeds what its distance allows at this II. */
  ghost predicate Overfull(cs: seq<Constraint>, constraints: seq<Constraint>, ii: int) {
    && Cycle(cs, constraints) && DistinctEnds(cs)
    && TotalSeparation(cs) > TotalDistance(cs) * ii
  }

  // No two constraints end in the same node.
  ghost predicate DistinctEnds(cs: seq<Constraint>) {
    forall i, j :: 0 <= i < j < |cs| ==> cs[i].dst != cs[j].dst
  }

  ghost predicate Reports(w: Witness, cs: seq<Constraint>) {
    && w.edges == KeysOf(EdgeOf, SortBy(EdgeOf, cs))
    && w.totalSeparation == TotalSeparation(cs) && w.totalDistance == TotalDistance(cs)
  }

  // Coming back means some predecessor moved after it was used, so the circuit gains.
  lemma CircuitGains(r: Relaxation, constraints: seq<Constraint>, n: nat, ii: int, current: nat, index: nat, clock: nat,
                     v: nat, steps: nat)
    requires InGraph(constraints, n) && Relaxing(r, constraints, n, ii, current, index, clock) && v < n
    requires Circuit(r, v, steps)
    ensures |Crossed(r, constraints, v, steps)| == steps
    ensures Overfull(Crossed(r, constraints, v, steps), constraints, ii)
  {
    hide Relaxing, Weight;
    BackWeighs(r, constraints, n, ii, current, index, clock, v, steps);
    CircuitDistinct(r, constraints, n, ii, current, index, clock, v, steps);
  }

  // Constraint k of what is crossed ends where k steps lead.
  lemma {:induction false} CrossedAt(r: Relaxation, constraints: seq<Constraint>, n: nat, ii: int, current: nat,
                                     index: nat, clock: nat, v: nat, steps: nat, k: nat)
    requires InGraph(constraints, n) && Relaxing(r, constraints, n, ii, current, index, clock) && v < n
    requires Back(r, v, steps).Some? && k < steps
    ensures |Crossed(r, constraints, v, steps)| == steps
    ensures Back(r, v, k) == Some(Crossed(r, constraints, v, steps)[k].dst)
  {
    hide Pending, Weight;
    BackWeighs(r, constraints, n, ii, current, index, clock, v, steps);
    BackWeighs(r, constraints, n, ii, current, index, clock, v, steps - 1);
    if k < steps - 1 {
      CrossedAt(r, constraints, n, ii, current, index, clock, v, steps - 1, k);
    } else {
      assert Kept(r, constraints, n, ii, current, clock, Back(r, v, k).value);
    }
  }

  lemma CircuitDistinct(r: Relaxation, constraints: seq<Constraint>, n: nat, ii: int, current: nat, index: nat,
                        clock: nat, v: nat, steps: nat)
    requires InGraph(constraints, n) && Relaxing(r, constraints, n, ii, current, index, clock) && v < n
    requires Circuit(r, v, steps)
    ensures DistinctEnds(Crossed(r, constraints, v, steps))
  {
    hide Relaxing, Weight;
    var cs := Crossed(r, constraints, v, steps);
    forall i, j | 0 <= i < j < |cs|
      ensures cs[i].dst != cs[j].dst
    {
      BackWeighs(r, constraints, n, ii, current, index, clock, v, steps);
      CrossedAt(r, constraints, n, ii, current, index, clock, v, steps, i);
      CrossedAt(r, constraints, n, ii, current, index, clock, v, steps, j);
      if Back(r, v, i) == Back(r, v, j) {
        RepeatReturns(r, v, i, j, steps);
      }
    }
  }

  lemma RepeatReturns(r: Relaxation, v: nat, i: nat, j: nat, steps: nat)
    requires i < j < steps && Back(r, v, i) == Back(r, v, j) && Back(r, v, steps) == Some(v)
    ensures Back(r, v, i + (steps - j)) == Some(v)
  {
    BackAdds(r, v, i, steps - j);
    BackAdds(r, v, j, steps - j);
  }

  // Among n + 1 vertices met on the way back, two coincide; the last one is then on a circuit.
  lemma ReachesCircuit(r: Relaxation, n: nat, v: nat) returns (period: nat)
    requires Back(r, v, n).Some? && forall k :: 0 <= k <= n ==> Back(r, v, k).Some? && Back(r, v, k).value < n
    ensures 0 < period <= n && Back(r, Back(r, v, n).value, period) == Some(Back(r, v, n).value)
  {
    var i, j := Coincide(seq(n + 1, k requires 0 <= k <= n => Back(r, v, k).value), n);
    period := j - i;
    BackPeriod(r, v, i, j, n);
  }

  // Once two steps coincide, every later one repeats with the same period.
  lemma {:induction false} BackPeriod(r: Relaxation, v: nat, i: nat, j: nat, k: nat)
    requires i < j <= k && Back(r, v, i) == Back(r, v, j) && Back(r, v, i).Some? && Back(r, v, k).Some?
    ensures Back(r, Back(r, v, k).value, j - i) == Back(r, v, k)
    decreases k
  {
    if k == j {
      BackAdds(r, v, i, j - i);
      assert i + (j - i) == j;
    } else {
      BackPeriod(r, v, i, j, k - 1);
      var w, period := Back(r, v, k - 1).value, j - i;
      BackAdds(r, w, period, 1);
      BackAdds(r, w, 1, period);
      assert Back(r, w, 1) == Back(r, v, k);
      assert period + 1 == 1 + period;
    }
  }

  lemma {:induction false} Coincide(s: seq<nat>, n: nat) returns (i: nat, j: nat)
    requires |s| == n + 1 && forall k :: 0 <= k < |s| ==> s[k] < n
    ensures i < j < |s| && s[i] == s[j]
    decreases n
  {
    if exists k :: 0 <= k < n && s[k] == s[n] {
      i :| 0 <= i < n && s[i] == s[n];
      j := n;
    } else {
      // Renaming the top value leaves n values below n - 1.
      var t := seq(n, k requires 0 <= k < n => if s[k] == n - 1 then s[n] else s[k]);
      i, j := Coincide(t, n - 1);
    }
  }

  // ----- The algorithm -----

  // Walks nodeCount predecessors back onto a cycle and goes round it once.
  method BuildWitness(constraints: seq<Constraint>, n: nat, lastUpdated: nat, l: Labels, ghost r: Relaxation,
                      ghost ii: int, ghost clock: nat, ghost index: nat)
    returns (cycle: Option<Witness>, ghost cs: seq<Constraint>)
    requires InGraph(constraints, n) && Relaxing(r, constraints, n, ii, n, index, clock) && l == LabelsOf(r)
    requires lastUpdated < n && r.round[lastUpdated] == n
    ensures cycle.Some? && Overfull(cs, constraints, ii) && Reports(cycle.value, cs)
  {
    hide Relaxing, Overfull, Pending;
    ShapedRelaxing(r, constraints, n, ii, n, index, clock);
    var cycleNode := lastUpdated;
    for count := 0 to n
      invariant Back(r, lastUpdated, count) == Some(cycleNode) && cycleNode < n
    {
      BackExists(r, constraints, n, ii, n, index, clock, lastUpdated, count + 1);
      if cycleNode >= |l.predecessorNode| || l.predecessorNode[cycleNode].None? {
        return None, [];
      }
      cycleNode := l.predecessorNode[cycleNode].value;
    }
    forall k | 0 <= k <= n
      ensures Back(r, lastUpdated, k).Some? && Back(r, lastUpdated, k).value < n
    {
      BackExists(r, constraints, n, ii, n, index, clock, lastUpdated, k);
    }
    ghost var period := ReachesCircuit(r, n, lastUpdated);
    cycle, cs := GoRound(constraints, n, cycleNode, l, r, ii, clock, index, period);
  }

  lemma ShapedRelaxing(r: Relaxation, constraints: seq<Constraint>, n: nat, ii: int, current: nat, index: nat, clock: nat)
    requires InGraph(constraints, n) && Relaxing(r, constraints, n, ii, current, index, clock)
    ensures Shaped(r, n)
  {
  }

  method GoRound(constraints: seq<Constraint>, n: nat, cycleNode: nat, l: Labels, ghost r: Relaxation, ghost ii: int,
                 ghost clock: nat, ghost index: nat, ghost period: nat)
    returns (cycle: Option<Witness>, ghost cs: seq<Constraint>)
    requires InGraph(constraints, n) && Relaxing(r, constraints, n, ii, n, index, clock) && Shaped(r, n)
    requires l == LabelsOf(r)
    requires cycleNode < n && 0 < period <= n && Back(r, cycleNode, period) == Some(cycleNode)
    ensures cycle.Some? && Overfull(cs, constraints, ii) && Reports(cycle.value, cs)
  {
    hide Relaxing, Overfull, Pending;
    var cycleConstraints: seq<Constraint> := [];
    var current := cycleNode;
    var started := false;
    ghost var steps := 0;
    while !started || current != cycleNode
      invariant steps <= period && Back(r, cycleNode, steps) == Some(current) && current < n
      invariant cycleConstraints == Crossed(r, constraints, cycleNode, steps) && |cycleConstraints| == steps
      invariant started <==> 0 < steps
      invariant forall k :: 0 < k < steps ==> Back(r, cycleNode, k) != Some(cycleNode)
      decreases period - steps
    {
      BackStep(r, constraints, n, ii, index, clock, cycleNode, steps, period);
      if current >= |l.predecessorConstraint| || l.predecessorConstraint[current].None? {
        return None, [];
      }
      cycleConstraints := cycleConstraints + [constraints[l.predecessorConstraint[current].value]];
      current, started := l.predecessorNode[current].value, true;
      steps := steps + 1;
      if |cycleConstraints| > n + 1 {
        return None, [];
      }
    }
    CircuitGains(r, constraints, n, ii, n, index, clock, cycleNode, steps);
    cs := cycleConstraints;
    var totals := Totals(cycleConstraints);
    cycle := Some(totals);
  }

  // As long as the circuit is not closed there is one more predecessor to follow.
  lemma BackStep(r: Relaxation, constraints: seq<Constraint>, n: nat, ii: int, index: nat, clock: nat, v: nat, steps: nat,
                 period: nat)
    requires InGraph(constraints, n) && Relaxing(r, constraints, n, ii, n, index, clock) && Shaped(r, n)
    requires v < n && 0 < period && steps <= period && Back(r, v, period) == Some(v) && Back(r, v, steps).Some?
    requires steps == 0 || Back(r, v, steps) != Some(v)
    ensures steps < period
    ensures var current := Back(r, v, steps).value;
      && current < n && r.predecessorNode[current].Some? && r.predecessorNode[current].value < n
      && Back(r, v, steps + 1) == r.predecessorNode[current]
      && r.predecessorConstraint[current].Some? && r.predecessorConstraint[current].value < |constraints|
      && Crossed(r, constraints, v, steps + 1) ==
         Crossed(r, constraints, v, steps) + [constraints[r.predecessorConstraint[current].value]]
  {
    hide Pending, Weight;
    BackWeighs(r, constraints, n, ii, n, index, clock, v, steps);
    BackAdds(r, v, steps + 1, period - steps - 1);
    BackWeighs(r, constraints, n, ii, n, index, clock, v, steps + 1);
    assert Kept(r, constraints, n, ii, n, clock, Back(r, v, steps).value);
  }

  // The sums over the cycle, taken in edge order.
  method Totals(cs: seq<Constraint>) returns (w: Witness)
    ensures Reports(w, cs)
  {
    var ordered := SortBy(EdgeOf, cs);
    var separation, distance := 0, 0;
    var edges: seq<nat> := [];
    for i := 0 to |ordered|
      invariant separation == TotalSeparation(ordered[..i]) && distance == TotalDistance(ordered[..i])
      invariant edges == KeysOf(EdgeOf, ordered)[..i]
    {
      assert ordered[..i + 1][..i] == ordered[..i];
      edges := edges + [ordered[i].edge];
      separation := separation + ordered[i].separation;
      distance := distance + ordered[i].distance;
    }
    assert ordered[..|ordered|] == ordered;
    SumSort(SeparationOf, EdgeOf, cs);
    SumSort(DistanceOf, EdgeOf, cs);
    w := Witness(edges, separation, distance);
  }

  // Relaxes every constraint once per round, at most nodeCount rounds.
  method Evaluate(constraints: seq<Constraint>, n: nat, ii: nat)
    returns (result: Feasibility, ghost cs: seq<Constraint>)
    requires InGraph(constraints, n)
    ensures n == 0 ==> !result.feasible
    ensures 0 < n ==> (result.feasible <==> Feasible(constraints, n, ii))
    ensures 0 < n && !result.feasible ==>
      result.cycle.Some? && Overfull(cs, constraints, ii) && Reports(result.cycle.value, cs)
  {
    if n == 0 {
      return Feasibility(false, None), [];
    }
    var l := Labels(seq(n, _ => 0), seq(n, _ => None), seq(n, _ => None));
    ghost var r := Relaxation(l.longest, l.predecessorNode, l.predecessorConstraint, seq(n, _ => 0), seq(n, _ => 0));
    ghost var clock := 0;
    var lastUpdated: Option<nat> := None;
    cs := [];
    for round := 0 to n
      invariant Relaxing(r, constraints, n, ii, round, |constraints|, clock) && l == LabelsOf(r)
      invariant 0 < round ==> lastUpdated.Some? && lastUpdated.value < n && r.round[lastUpdated.value] == round
    {
      l, lastUpdated, r, clock := RunRound(constraints, n, ii, l, r, round, clock);
      if lastUpdated.None? {
        return Feasibility(true, None), [];
      }
    }
    var cycle;
    cycle, cs := BuildWitness(constraints, n, lastUpdated.value, l, r, ii, clock, |constraints|);
    CycleRefutes(constraints, n, ii, cs);
    result := Feasibility(false, cycle);
  }

  method RunRound(constraints: seq<Constraint>, n: nat, ii: nat, start: Labels, ghost r0: Relaxation, round: nat,
                  ghost clock0: nat)
    returns (l: Labels, lastUpdated: Option<nat>, ghost r: Relaxation, ghost clock: nat)
    requires InGraph(constraints, n) && Relaxing(r0, constraints, n, ii, round, |constraints|, clock0)
    requires start == LabelsOf(r0)
    ensures Relaxing(r, constraints, n, ii, round + 1, |constraints|, clock) && l == LabelsOf(r)
    ensures lastUpdated.Some? ==> lastUpdated.value < n && r.round[lastUpdated.value] == round + 1
    ensures lastUpdated.None? ==> Feasible(constraints, n, ii)
  {
    hide Weight;
    l, lastUpdated := start, None;
    r, clock := r0, clock0;
    NextRound(r, constraints, n, ii, round, clock);
    for index := 0 to |constraints|
      invariant Relaxing(r, constraints, n, ii, round + 1, index, clock) && l == LabelsOf(r)
      invariant lastUpdated.Some? ==> lastUpdated.value < n && r.round[lastUpdated.value] == round + 1
      invariant lastUpdated.None? ==> forall j :: 0 <= j < index ==> Meets(l.longest, constraints[j], ii)
    {
      var c := constraints[index];
      var candidate := l.longest[c.src] + Weight(c, ii);
      if l.longest[c.dst] < candidate {
        RelaxStep(r, constraints, n, ii, round + 1, index, clock);
        r, clock := Relaxed(r, c, index, ii, round + 1, clock), clock + 1;
        l := Labels(l.longest[c.dst := candidate], l.predecessorNode[c.dst := Some(c.src)],
                    l.predecessorConstraint[c.dst := Some(index)]);
        lastUpdated := Some(c.dst);
      } else {
        SkipStep(r, constraints, n, ii, round + 1, index, clock);
      }
    }
    if lastUpdated.None? {
      assert Schedules(l.longest, constraints, n, ii);
    }
  }

  lemma NextRound(r: Relaxation, constraints: seq<Constraint>, n: nat, ii: int, current: nat, clock: nat)
    requires InGraph(constraints, n) && Relaxing(r, constraints, n, ii, current, |constraints|, clock)
    ensures Relaxing(r, constraints, n, ii, current + 1, 0, clock)
  {
    hide Justified;
    var next := current + 1;
    forall v | 0 <= v < n
      ensures Kept(r, constraints, n, ii, next, clock, v)
    {
      assert Kept(r, constraints, n, ii, current, clock, v);
    }
    forall j | 0 <= j < |constraints|
      ensures Pending(r, constraints, n, ii, next, 0, j)
    {
      assert Pending(r, constraints, n, ii, current, |constraints|, j);
    }
  }

  lemma SkipStep(r: Relaxation, constraints: seq<Constraint>, n: nat, ii: int, current: nat, index: nat, clock: nat)
    requires InGraph(constraints, n) && index < |constraints|
    requires Relaxing(r, constraints, n, ii, current, index, clock) && Meets(r.longest, constraints[index], ii)
    ensures Relaxing(r, constraints, n, ii, current, index + 1, clock)
  {
    hide Kept;
    var index' := index + 1;
    forall j | 0 <= j < |constraints|
      ensures Pending(r, constraints, n, ii, current, index', j)
    {
      assert Pending(r, constraints, n, ii, current, index, j);
    }
  }

  // ----- The least feasible II -----

  datatype RecurrenceStatus = Bounded | ZeroDistanceCycle | UpperBoundOverflow | InternalError

  // A schedule stays one when the II grows.
  lemma FeasibleMonotone(constraints: seq<Constraint>, n: nat, ii: int, more: int)
    requires InGraph(constraints, n) && Feasible(constraints, n, ii) && ii <= more
    ensures Feasible(constraints, n, more)
  {
    var times :| Schedules(times, constraints, n, ii);
    forall i | 0 <= i < |constraints|
      ensures Meets(times, constraints[i], more)
    {
      assert Meets(times, constraints[i], ii);
      assert constraints[i].distance * more - constraints[i].distance * ii == constraints[i].distance * (more - ii);
    }
    assert Schedules(times, constraints, n, more);
  }

  lemma RemoveOne<T(!new)>(f: T -> nat, part: seq<T>, k: nat) returns (rest: seq<T>)
    requires k < |part| && Distinct(part)
    ensures Sum(f, part) == Sum(f, rest) + f(part[k]) && Distinct(rest)
    ensures forall x :: x in rest <==> x in part && x != part[k]
  {
    var before, after := part[..k], part[k + 1..];
    rest := before + after;
    assert part == before + [part[k]] + after;
    SumConcat(f, before + [part[k]], after);
    SumConcat(f, before, [part[k]]);
    SumConcat(f, before, after);
    SumOne(f, part[k]);
    Removed(part, k);
  }

  lemma Removed<T(!new)>(part: seq<T>, k: nat)
    requires k < |part| && Distinct(part)
    ensures Distinct(part[..k] + part[k + 1..])
    ensures forall x :: x in part[..k] + part[k + 1..] <==> x in part && x != part[k]
  {
    var rest := part[..k] + part[k + 1..];
    assert forall j :: 0 <= j < |rest| ==> rest[j] == part[if j < k then j else j + 1];
    forall x | x in part && x != part[k]
      ensures x in rest
    {
      var j :| 0 <= j < |part| && part[j] == x;
      assert rest[if j < k then j else j - 1] == x;
    }
  }

  lemma FirstMember<T>(s: seq<T>)
    ensures s == [] || s[0] in s
  {
  }

  // Distinct members sum to no more than the whole.
  lemma {:induction false} SumDistinct<T(!new)>(f: T -> nat, part: seq<T>, all: seq<T>)
    requires Distinct(part) && forall x :: x in part ==> x in all
    ensures Sum(f, part) <= Sum(f, all)
    decreases |all|
  {
    if all == [] {
      FirstMember(part);
    } else {
      hide Distinct;
      var init, last := all[..|all| - 1], all[|all| - 1];
      assert all == init + [last];
      if last in part {
        var k :| 0 <= k < |part| && part[k] == last;
        var rest := RemoveOne(f, part, k);
        SumDistinct(f, rest, init);
      } else {
        SumDistinct(f, part, init);
      }
    }
  }

  lemma {:induction false} NoDistance(cs: seq<Constraint>)
    requires TotalDistance(cs) == 0
    ensures forall c :: c in cs ==> c.distance == 0
  {
    if cs != [] {
      NoDistance(cs[..|cs| - 1]);
      assert cs == cs[..|cs| - 1] + [cs[|cs| - 1]];
    }
  }

  // Once zero-distance cycles are excluded, no cycle is overfull at the total separation.
  lemma NeverOverfull(constraints: seq<Constraint>, zero: seq<Constraint>, n: nat, cs: seq<Constraint>)
    requires InGraph(constraints, n) && InGraph(zero, n) && Feasible(zero, n, 0)
    requires forall c :: c in constraints && c.distance == 0 ==> c in zero
    ensures !Overfull(cs, constraints, TotalSeparation(constraints))
  {
    hide Feasible, InGraph, Sum, Chain;
    if Cycle(cs, constraints) && DistinctEnds(cs) {
      assert Distinct(cs);
      SumDistinct(SeparationOf, cs, constraints);
      hide *;
      var d, s := TotalDistance(cs), TotalSeparation(constraints);
      if d == 0 {
        NoDistance(cs);
        ZeroCycleRefuted(constraints, zero, n, cs);
      } else {
        AtLeastOnce(d, s);
      }
    }
  }

  lemma AtLeastOnce(d: nat, s: nat)
    requires d >= 1
    ensures d * s >= s
  {
    assert d * s == (d - 1) * s + s;
  }

  lemma ZeroCycleRefuted(constraints: seq<Constraint>, zero: seq<Constraint>, n: nat, cs: seq<Constraint>)
    requires InGraph(zero, n) && Feasible(zero, n, 0) && Cycle(cs, constraints)
    requires forall c :: c in constraints && c.distance == 0 ==> c in zero
    requires forall c :: c in cs ==> c.distance == 0
    ensures TotalSeparation(cs) == 0
  {
    assert Cycle(cs, zero);
    if TotalSeparation(cs) > TotalDistance(cs) * 0 {
      CycleRefutes(zero, n, 0, cs);
    }
  }

  // A cycle without distance is too long for every II.
  lemma ZeroCycleAlways(constraints: seq<Constraint>, zero: seq<Constraint>, n: nat, cs: seq<Constraint>, ii: int)
    requires InGraph(constraints, n) && Overfull(cs, zero, 0)
    requires forall c :: c in zero ==> c in constraints && c.distance == 0
    ensures !Feasible(constraints, n, ii)
  {
    AllZero(cs);
    assert Cycle(cs, constraints);
    CycleRefutes(constraints, n, ii, cs);
  }

  lemma {:induction false} AllZero(cs: seq<Constraint>)
    requires forall c :: c in cs ==> c.distance == 0
    ensures TotalDistance(cs) == 0
  {
    if cs != [] {
      assert cs[|cs| - 1] in cs;
      AllZero(cs[..|cs| - 1]);
    }
  }

  method ZeroDistance(constraints: seq<Constraint>) returns (zero: seq<Constraint>)
    ensures forall c :: c in zero <==> c in constraints && c.distance == 0
  {
    zero := [];
    for i := 0 to |constraints|
      invariant forall c :: c in zero <==> c in constraints[..i] && c.distance == 0
    {
      assert constraints[..i + 1] == constraints[..i] + [constraints[i]];
      if constraints[i].distance == 0 {
        zero := zero + [constraints[i]];
      }
    }
    assert constraints[..|constraints|] == constraints;
  }

  // The II from which on, and only from which on, issue times exist.
  ghost predicate Threshold(constraints: seq<Constraint>, n: nat, bound: nat)
    requires InGraph(constraints, n)
  {
    1 <= bound && forall ii: nat :: 1 <= ii ==> (Feasible(constraints, n, ii) <==> ii >= bound)
  }

  /** Finds the exact recurrence bound by bisection below the total separation. */
  method RecurrenceBound(constraints: seq<Constraint>, n: nat, totalSeparation: nat, limit: nat)
    returns (status: RecurrenceStatus, bound: nat, cycle: Option<Witness>, ghost cs: seq<Constraint>)
    requires InGraph(constraints, n) && totalSeparation == TotalSeparation(constraints)
    requires forall c :: c in constraints ==> 0 < c.separation
    ensures status == Bounded ==> Threshold(constraints, n, bound) && bound <= limit + 1
    ensures status == Bounded && bound > 1 ==>
      cycle.Some? && Overfull(cs, constraints, bound - 1) && Reports(cycle.value, cs)
    ensures status == ZeroDistanceCycle ==>
      && cycle.Some? && Reports(cycle.value, cs) && Cycle(cs, constraints) && DistinctEnds(cs) && TotalDistance(cs) == 0
      && forall ii: nat :: !Feasible(constraints, n, ii)
    ensures status == UpperBoundOverflow ==> totalSeparation > limit
    ensures status != InternalError
  {
    bound, cycle, cs := 1, None, [];
    if constraints == [] {
      Unconstrained(constraints, n);
      return Bounded, 1, None, [];
    }
    PositiveTotal(constraints);
    var zero := ZeroDistance(constraints);
    assert InGraph(zero, n) by {
      forall i | 0 <= i < |zero| ensures zero[i].src < n && zero[i].dst < n { assert zero[i] in zero; }
    }
    var zeroFeasibility;
    zeroFeasibility, cs := Evaluate(zero, n, 0);
    if !zeroFeasibility.feasible {
      forall ii: nat
        ensures !Feasible(constraints, n, ii)
      {
        ZeroCycleAlways(constraints, zero, n, cs, ii);
      }
      AllZero(cs);
      return ZeroDistanceCycle, 1, zeroFeasibility.cycle, cs;
    }
    if totalSeparation == 0 {
      status := InternalError;
      return;
    }
    if totalSeparation > limit {
      return UpperBoundOverflow, 1, None, [];
    }
    var atUpperBound;
    atUpperBound, cs := Evaluate(constraints, n, totalSeparation);
    NeverOverfull(constraints, zero, n, cs);
    if !atUpperBound.feasible {
      status := InternalError;
      return;
    }
    bound := Bisect(constraints, n, totalSeparation);
    if bound > 1 {
      var below;
      below, cs := Evaluate(constraints, n, bound - 1);
      cycle := below.cycle;
    }
    status := Bounded;
  }

  lemma Unconstrained(constraints: seq<Constraint>, n: nat)
    requires constraints == []
    ensures Threshold(constraints, n, 1)
  {
    forall ii: nat
      ensures Feasible(constraints, n, ii)
    {
      assert Schedules(seq(n, _ => 0), constraints, n, ii);
    }
  }

  lemma PositiveTotal(constraints: seq<Constraint>)
    requires constraints != [] && forall c :: c in constraints ==> 0 < c.separation
    ensures 0 < TotalSeparation(constraints)
  {
    assert constraints[|constraints| - 1] in constraints;
  }

  method Bisect(constraints: seq<Constraint>, n: nat, totalSeparation: nat) returns (bound: nat)
    requires InGraph(constraints, n) && 0 < n && 0 < totalSeparation
    requires Feasible(constraints, n, totalSeparation)
    ensures Threshold(constraints, n, bound) && bound <= totalSeparation
  {
    var low, high := 1, totalSeparation;
    while low < high
      invariant 1 <= low <= high <= totalSeparation
      invariant Feasible(constraints, n, high)
      invariant low == 1 || !Feasible(constraints, n, low - 1)
    {
      var mid := low + (high - low) / 2;
      var atMid, _ := Evaluate(constraints, n, mid);
      if atMid.feasible {
        high := mid;
      } else {
        low := mid + 1;
      }
    }
    bound := low;
    forall ii: nat | 1 <= ii
      ensures Feasible(constraints, n, ii) <==> ii >= bound
    {
      if ii >= bound {
        FeasibleMonotone(constraints, n, bound, ii);
      } else if Feasible(constraints, n, ii) {
        FeasibleMonotone(constraints, n, ii, bound - 1);
      }
    }
  }
}
