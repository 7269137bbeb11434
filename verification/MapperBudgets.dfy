// When a mapping run leaves an II behind: what budgets guarantee, and what exhausting an II takes of them.

module MapperBudgets {
  import opened Wrappers
  import opened Mesh
  import opened Target
  import opened ResourceBound
  import opened SearchBudget
  import opened FairShares
  import opened Mapper
  import opened MapperRun

  // ----- The counters of a run -----

  datatype Counter = NodeAttempts | Backtracks | RouteCalls

  function Reading(c: Counter, stats: Stats): nat {
    match c
    case NodeAttempts => stats.nodeCandidateAttempts
    case Backtracks => stats.backtracks
    case RouteCalls => stats.routeSearchCalls
  }

  function Limit(c: Counter, limits: SearchLimits): nat {
    match c
    case NodeAttempts => limits.nodeCandidateAttempts
    case Backtracks => limits.backtracks
    case RouteCalls => limits.routeSearchCalls
  }

  function Amount(c: Counter, cost: Expense): nat {
    match c
    case NodeAttempts => cost.attempts
    case Backtracks => cost.backtracks
    case RouteCalls => cost.routeCalls
  }

  // The counter before each attempt.
  function Used(c: Counter, trace: seq<Attempt>): (used: seq<nat>)
    ensures |used| == |trace|
  {
    seq<nat>(|trace|, i requires 0 <= i < |trace| => Reading(c, trace[i].before))
  }

  lemma UsedAt(c: Counter, trace: seq<Attempt>, i: nat)
    requires i < |trace|
    ensures Used(c, trace)[i] == Reading(c, trace[i].before)
  {
  }

  // The counter of one attempt stays within its share.
  lemma AttemptSpends(dfg: TargetDFG, target: TargetModel, options: MapperOptions, first: nat, last: nat,
                      trace: seq<Attempt>, c: Counter, i: nat)
    requires Account(dfg, target, options, first, last, trace) && i < |trace|
    ensures first + i <= last
    ensures Limit(c, trace[i].limits) == FairShareLimit(Limit(c, options.budget), Used(c, trace)[i], last + 1 - first - i)
    ensures i == 0 ==> Used(c, trace)[i] == 0
    ensures i + 1 < |trace| ==> Used(c, trace)[i] <= Used(c, trace)[i + 1] <= Limit(c, trace[i].limits)
  {
    hide FullyExhausted, TightRouting, LateRouting, FairShareLimit, MovesOn, Sane, MostCost, LeastTries, Short;
    assert Justified(dfg, target, options, trace[i]) && Shares(trace[i].limits, options.budget, trace[i].before,
                                                               last - trace[i].ii + 1);
  }

  lemma CounterSpends(dfg: TargetDFG, target: TargetModel, options: MapperOptions, first: nat, last: nat,
                      trace: seq<Attempt>, c: Counter)
    requires Account(dfg, target, options, first, last, trace) && trace != []
    ensures first + |trace| <= last + 1 && Spending(Limit(c, options.budget), Used(c, trace), last + 1 - first)
  {
    hide Account, FairShareLimit, Limit, Used;
    AttemptSpends(dfg, target, options, first, last, trace, c, 0);
    AttemptSpends(dfg, target, options, first, last, trace, c, |trace| - 1);
    forall i | 0 <= i < |trace| - 1
      ensures Used(c, trace)[i] <= Used(c, trace)[i + 1] <=
              FairShareLimit(Limit(c, options.budget), Used(c, trace)[i], last + 1 - first - i)
    {
      AttemptSpends(dfg, target, options, first, last, trace, c, i);
    }
  }

  /** The counters of every run are a spending, so enough budget gives every II tried a unit of each kind. */
  lemma RunIsFair(dfg: TargetDFG, target: TargetModel, options: MapperOptions, first: nat, last: nat, trace: seq<Attempt>,
                  c: Counter)
    requires Account(dfg, target, options, first, last, trace) && trace != [] && first <= last
    requires Limit(c, options.budget) >= PowerOfTwo(last - first)
    ensures forall i :: 0 <= i < |trace| ==> Limit(c, trace[i].limits) > Reading(c, trace[i].before)
  {
    hide *;
    CounterSpends(dfg, target, options, first, last, trace, c);
    AttemptSpends(dfg, target, options, first, last, trace, c, 0);
    FairToEveryII(Limit(c, options.budget), Used(c, trace), last + 1 - first);
    forall i | 0 <= i < |trace|
      ensures Limit(c, trace[i].limits) > Reading(c, trace[i].before)
    {
      AttemptSpends(dfg, target, options, first, last, trace, c, i);
      UsedAt(c, trace, i);
    }
  }

  // ----- Exhausting every II left behind -----

  // Every II left behind was left because its search was exhausted.
  ghost predicate RaisedOnlyExhausted(trace: seq<Attempt>) {
    forall i :: 0 <= i < |trace| - 1 ==> trace[i].outcome == Exhausted
  }

  // The most that each of the first k IIs can cost, and the fewest candidates it takes to exhaust them.
  ghost function MostCosts(dfg: TargetDFG, target: TargetModel, c: Counter, first: nat, k: nat): (costs: seq<nat>)
    ensures |costs| == k
  {
    seq<nat>(k, i requires 0 <= i < k => Amount(c, MostCost(dfg, target, first + i)))
  }

  ghost function LeastCosts(dfg: TargetDFG, target: TargetModel, first: nat, k: nat): (costs: seq<nat>)
    ensures |costs| == k
  {
    seq<nat>(k, i requires 0 <= i < k => LeastTries(dfg, target, first + i))
  }

  /** The budget of this counter covers, share by share, the most that the first k IIs can cost. */
  ghost predicate Enough(dfg: TargetDFG, target: TargetModel, options: MapperOptions, first: nat, last: nat, k: nat,
                         c: Counter)
  {
    first <= last + 1 && Covers(Limit(c, options.budget), MostCosts(dfg, target, c, first, k), last + 1 - first)
  }

  ghost predicate Ample(dfg: TargetDFG, target: TargetModel, options: MapperOptions, first: nat, last: nat, k: nat) {
    forall c :: Enough(dfg, target, options, first, last, k, c)
  }

  lemma ShortOf(before: Stats, after: Stats, limits: SearchLimits, most: Expense) returns (c: Counter)
    requires Short(before, after, limits, most)
    ensures Limit(c, limits) <= Reading(c, after) < Reading(c, before) + Amount(c, most)
  {
    if limits.nodeCandidateAttempts <= after.nodeCandidateAttempts < before.nodeCandidateAttempts + most.attempts {
      c := NodeAttempts;
    } else if limits.backtracks <= after.backtracks < before.backtracks + most.backtracks {
      c := Backtracks;
    } else {
      c := RouteCalls;
    }
  }

  // What one attempt of a run costs.
  lemma AttemptCosts(dfg: TargetDFG, target: TargetModel, options: MapperOptions, first: nat, last: nat,
                     trace: seq<Attempt>, i: nat, c: Counter)
    requires Account(dfg, target, options, first, last, trace) && i < |trace|
    ensures trace[i].ii == first + i && (i == 0 ==> Reading(c, trace[i].before) == 0)
    ensures i + 1 < |trace| ==> trace[i + 1].before == trace[i].after && MovesOn(trace[i].outcome)
    ensures Reading(c, trace[i].after) <= Reading(c, trace[i].before) + Amount(c, MostCost(dfg, target, first + i))
    ensures Reading(c, trace[i].after) <= Limit(c, trace[i].limits)
    ensures trace[i].outcome == PerIIBudgetExceeded ==>
      Short(trace[i].before, trace[i].after, trace[i].limits, MostCost(dfg, target, first + i))
    ensures trace[i].outcome == Exhausted ==>
      Reading(NodeAttempts, trace[i].after) >= Reading(NodeAttempts, trace[i].before) + LeastTries(dfg, target, first + i)
  {
    hide FullyExhausted, TightRouting, LateRouting, Shares, MostCost, LeastTries, Short;
    assert Justified(dfg, target, options, trace[i]);
  }

  // The first i IIs together never cost more than the most.
  lemma {:induction false} SpentAtMost(dfg: TargetDFG, target: TargetModel, options: MapperOptions, first: nat, last: nat,
                                       trace: seq<Attempt>, c: Counter, i: nat, k: nat)
    requires Account(dfg, target, options, first, last, trace) && i < |trace| && i <= k
    ensures Reading(c, trace[i].before) <= Total(MostCosts(dfg, target, c, first, k)[..i])
  {
    hide Account, MostCost;
    AttemptCosts(dfg, target, options, first, last, trace, i, c);
    if i > 0 {
      SpentAtMost(dfg, target, options, first, last, trace, c, i - 1, k);
      AttemptCosts(dfg, target, options, first, last, trace, i - 1, c);
      TotalMore(MostCosts(dfg, target, c, first, k), i - 1);
    }
  }

  // A share that covers the most an II can cost is never used up.
  lemma NotShort(dfg: TargetDFG, target: TargetModel, options: MapperOptions, first: nat, last: nat,
                 trace: seq<Attempt>, i: nat, k: nat)
    requires Account(dfg, target, options, first, last, trace) && i < |trace| && i < k
    requires Ample(dfg, target, options, first, last, k)
    ensures trace[i].outcome != PerIIBudgetExceeded
  {
    hide Account, MostCost, Covers, Short;
    AttemptCosts(dfg, target, options, first, last, trace, i, NodeAttempts);
    if trace[i].outcome == PerIIBudgetExceeded {
      var c := ShortOf(trace[i].before, trace[i].after, trace[i].limits, MostCost(dfg, target, first + i));
      assert Enough(dfg, target, options, first, last, k, c);
      SpentAtMost(dfg, target, options, first, last, trace, c, i, k);
      AttemptSpends(dfg, target, options, first, last, trace, c, i);
      RoomLeft(Limit(c, options.budget), MostCosts(dfg, target, c, first, k), last + 1 - first, i,
               Reading(c, trace[i].before));
      assert false;
    }
  }

  /**
   * The documented rule, in terms of what is known before the call: budgets that cover the most the first k IIs can cost
   * make each of them that is left behind an exhausted one.
   */
  lemma AmpleRaisesOnlyExhausted(dfg: TargetDFG, target: TargetModel, options: MapperOptions, first: nat, last: nat,
                                 trace: seq<Attempt>, k: nat)
    requires Account(dfg, target, options, first, last, trace) && 0 < |trace| <= k + 1
    requires Ample(dfg, target, options, first, last, k)
    ensures RaisedOnlyExhausted(trace)
    ensures forall ii :: first <= ii < trace[|trace| - 1].ii ==> FullyExhausted(dfg, target, ii, options)
  {
    hide Account, Ample, FullyExhausted;
    forall i | 0 <= i < |trace| - 1
      ensures trace[i].outcome == Exhausted
    {
      NotShort(dfg, target, options, first, last, trace, i, k);
      AttemptCosts(dfg, target, options, first, last, trace, i, NodeAttempts);
    }
    AttemptCosts(dfg, target, options, first, last, trace, |trace| - 1, NodeAttempts);
    forall ii | first <= ii < trace[|trace| - 1].ii
      ensures FullyExhausted(dfg, target, ii, options)
    {
      LeftExhausted(dfg, target, options, first, last, trace, ii - first);
    }
  }

  lemma LeftExhausted(dfg: TargetDFG, target: TargetModel, options: MapperOptions, first: nat, last: nat,
                      trace: seq<Attempt>, i: nat)
    requires Account(dfg, target, options, first, last, trace) && i < |trace| && trace[i].outcome == Exhausted
    ensures FullyExhausted(dfg, target, first + i, options)
  {
    hide FullyExhausted, Shares;
    assert Justified(dfg, target, options, trace[i]);
  }

  // The first i IIs, all exhausted, together took the fewest candidates at least.
  lemma {:induction false} SpentAtLeast(dfg: TargetDFG, target: TargetModel, options: MapperOptions, first: nat, last: nat,
                                        trace: seq<Attempt>, i: nat, k: nat)
    requires Account(dfg, target, options, first, last, trace) && i < |trace| && i <= k
    requires forall j :: 0 <= j < i ==> trace[j].outcome == Exhausted
    ensures Reading(NodeAttempts, trace[i].before) >= Total(LeastCosts(dfg, target, first, k)[..i])
  {
    hide Account, LeastTries;
    if i > 0 {
      SpentAtLeast(dfg, target, options, first, last, trace, i - 1, k);
      AttemptCosts(dfg, target, options, first, last, trace, i - 1, NodeAttempts);
      TotalMore(LeastCosts(dfg, target, first, k), i - 1);
    }
  }

  /**
   * Conversely the rule takes budget: unless candidate attempts cover, share by share, the slots of the fewest tiles any node
   * has, some II is left behind unexhausted.
   */
  lemma ExhaustionTakesBudget(dfg: TargetDFG, target: TargetModel, options: MapperOptions, first: nat, last: nat,
                              trace: seq<Attempt>)
    requires Account(dfg, target, options, first, last, trace) && trace != []
    ensures RaisedOnlyExhausted(trace) ==>
      Covers(options.budget.nodeCandidateAttempts, LeastCosts(dfg, target, first, |trace| - 1), last + 1 - first)
    ensures forall i | 0 <= i < |trace| :: trace[i].outcome == Exhausted ==>
      trace[i].limits.nodeCandidateAttempts >= trace[i].before.nodeCandidateAttempts + LeastTries(dfg, target, trace[i].ii)
  {
    hide Account, LeastTries, MostCost, FairShareLimit;
    var c, costs, n := NodeAttempts, LeastCosts(dfg, target, first, |trace| - 1), last + 1 - first;
    forall i | 0 <= i < |trace| && trace[i].outcome == Exhausted
      ensures trace[i].limits.nodeCandidateAttempts >=
              trace[i].before.nodeCandidateAttempts + LeastTries(dfg, target, trace[i].ii)
    {
      AttemptCosts(dfg, target, options, first, last, trace, i, c);
    }
    if RaisedOnlyExhausted(trace) {
      CounterSpends(dfg, target, options, first, last, trace, c);
      forall i | 0 <= i < |trace| - 1
        ensures Total(costs[..i]) + costs[i] <= FairShareLimit(options.budget.nodeCandidateAttempts, Total(costs[..i]), n - i)
      {
        SpentAtLeast(dfg, target, options, first, last, trace, i, |trace| - 1);
        AttemptCosts(dfg, target, options, first, last, trace, i, c);
        AttemptSpends(dfg, target, options, first, last, trace, c, i);
        RoomShown(options.budget.nodeCandidateAttempts, costs, n, i, Reading(c, trace[i].before), Reading(c, trace[i].after));
      }
    }
  }

  // For a single node the two bounds meet.
  lemma OneNodeBounds(dfg: TargetDFG, target: TargetModel, ii: nat)
    requires |dfg.nodes| == 1
    ensures MostCost(dfg, target, ii).attempts == LeastTries(dfg, target, ii)
  {
    hide SupportingTiles;
    assert MostTiles(target, dfg.nodes[1..]) == 0;
    assert MostTiles(target, dfg.nodes) == FewestTiles(target, dfg.nodes);
    var width := ii * MostTiles(target, dfg.nodes);
    assert TreeCost(width, |dfg.edges|, 1) == Times(width, OneTry(Expense(0, 0, 0), |dfg.edges|));
  }

  /** A graph of one node: with backtracks and route calls to spare the rule is kept exactly when the attempts cover it. */
  lemma OneNodeRaisesExactly(dfg: TargetDFG, target: TargetModel, options: MapperOptions, first: nat, last: nat,
                             trace: seq<Attempt>)
    requires Account(dfg, target, options, first, last, trace) && trace != [] && |dfg.nodes| == 1
    requires Enough(dfg, target, options, first, last, |trace| - 1, Backtracks)
    requires Enough(dfg, target, options, first, last, |trace| - 1, RouteCalls)
    ensures RaisedOnlyExhausted(trace) <==>
      Covers(options.budget.nodeCandidateAttempts, LeastCosts(dfg, target, first, |trace| - 1), last + 1 - first)
  {
    var k: nat := |trace| - 1;
    OneNodeCosts(dfg, target, first, k);
    hide Account, Covers, MostCosts, LeastCosts, RaisedOnlyExhausted;
    ExhaustionTakesBudget(dfg, target, options, first, last, trace);
    if Covers(options.budget.nodeCandidateAttempts, LeastCosts(dfg, target, first, k), last + 1 - first) {
      forall c
        ensures Enough(dfg, target, options, first, last, k, c)
      {
        assert c == NodeAttempts || c == Backtracks || c == RouteCalls;
      }
      AmpleRaisesOnlyExhausted(dfg, target, options, first, last, trace, k);
    }
  }

  lemma OneNodeCosts(dfg: TargetDFG, target: TargetModel, first: nat, k: nat)
    requires |dfg.nodes| == 1
    ensures MostCosts(dfg, target, NodeAttempts, first, k) == LeastCosts(dfg, target, first, k)
  {
    hide MostCost, LeastTries;
    forall i | 0 <= i < k
      ensures MostCosts(dfg, target, NodeAttempts, first, k)[i] == LeastCosts(dfg, target, first, k)[i]
    {
      OneNodeBounds(dfg, target, first + i);
      assert MostCosts(dfg, target, NodeAttempts, first, k)[i] == Amount(NodeAttempts, MostCost(dfg, target, first + i));
      assert LeastCosts(dfg, target, first, k)[i] == LeastTries(dfg, target, first + i);
    }
  }

  // ----- Budgets that decide -----

  // No II in the range can stop a route search short.
  ghost predicate Roomy(dfg: TargetDFG, target: TargetModel, options: MapperOptions, first: nat, last: nat) {
    forall ii :: first <= ii <= last ==> !TightRouting(options.routeOptions, target, ii) && !LateRouting(dfg, target, ii)
  }

  /**
   * With ample budgets for every II and room for the route searches, and no check of the caller's to end the run, the mapper
   * decides: it maps the graph, or every II in range was searched to exhaustion.
   */
  lemma AmpleDecides(dfg: TargetDFG, target: TargetModel, options: MapperOptions, first: nat, last: nat,
                     trace: seq<Attempt>)
    requires Account(dfg, target, options, first, last, trace) && Finished(first, last, trace) && first <= last
    requires !options.checked && Roomy(dfg, target, options, first, last)
    requires Ample(dfg, target, options, first, last, last + 1 - first)
    ensures Verdict(trace) == Mapped || Verdict(trace) == NoMappingWithinIILimit
    ensures Verdict(trace) == NoMappingWithinIILimit ==>
      forall ii :: first <= ii <= last ==> FullyExhausted(dfg, target, ii, options)
  {
    forall i | 0 <= i < |trace|
      ensures trace[i].outcome == Success || trace[i].outcome == Exhausted
    {
      Decided(dfg, target, options, first, last, trace, i);
    }
    hide Account, Ample, FullyExhausted, Roomy, LastII, FirstII;
    if Verdict(trace) == NoMappingWithinIILimit {
      NoMappingMeansExhausted(dfg, target, options, first, last, trace);
    }
  }

  lemma Decided(dfg: TargetDFG, target: TargetModel, options: MapperOptions, first: nat, last: nat,
                trace: seq<Attempt>, i: nat)
    requires Account(dfg, target, options, first, last, trace) && i < |trace|
    requires !options.checked && Roomy(dfg, target, options, first, last)
    requires Ample(dfg, target, options, first, last, last + 1 - first)
    ensures trace[i].outcome == Success || trace[i].outcome == Exhausted
  {
    hide FullyExhausted, TightRouting, LateRouting, Shares, Ample, Paid;
    assert trace[i].ii == first + i <= last && Justified(dfg, target, options, trace[i]);
    NotShort(dfg, target, options, first, last, trace, i, last + 1 - first);
  }

  // Costs grow with the II.
  lemma {:induction false} WiderCostsMore(narrow: nat, wide: nat, edges: nat, left: nat, c: Counter)
    requires narrow <= wide
    ensures Amount(c, TreeCost(narrow, edges, left)) <= Amount(c, TreeCost(wide, edges, left))
  {
    if left > 0 {
      hide *;
      WiderCostsMore(narrow, wide, edges, left - 1, c);
      var below, more := TreeCost(narrow, edges, left - 1), TreeCost(wide, edges, left - 1);
      TreeCostMore(narrow, edges, left);
      TreeCostMore(wide, edges, left);
      TryAmount(c, below, more, edges);
      TimesMore(c, narrow, wide, OneTry(below, edges), OneTry(more, edges));
    }
  }

  lemma TimesMore(c: Counter, narrow: nat, wide: nat, below: Expense, more: Expense)
    requires narrow <= wide && Amount(c, below) <= Amount(c, more)
    ensures Amount(c, Times(narrow, below)) <= Amount(c, Times(wide, more))
  {
    hide Amount, Times;
    TimesAmount(c, narrow, below);
    TimesAmount(c, wide, more);
    ProductGrows(narrow, wide, Amount(c, below));
    ProductGrows(Amount(c, below), Amount(c, more), wide);
  }

  lemma TryAmount(c: Counter, below: Expense, more: Expense, edges: nat)
    requires Amount(c, below) <= Amount(c, more)
    ensures Amount(c, OneTry(below, edges)) <= Amount(c, OneTry(more, edges))
  {
  }

  lemma TimesAmount(c: Counter, k: nat, cost: Expense)
    ensures Amount(c, Times(k, cost)) == k * Amount(c, cost)
  {
  }

  /** Enough, in round figures: as many times the most the last II can cost as there are IIs to try. */
  lemma RoundFiguresAreAmple(dfg: TargetDFG, target: TargetModel, options: MapperOptions, first: nat, last: nat, k: nat)
    requires first <= last && k <= last + 1 - first
    requires forall c :: Limit(c, options.budget) >= (last + 1 - first) * Amount(c, MostCost(dfg, target, last))
    ensures Ample(dfg, target, options, first, last, k)
  {
    hide Covers, Limit, MostCost;
    forall c
      ensures Enough(dfg, target, options, first, last, k, c)
    {
      forall j | 0 <= j < k
        ensures MostCosts(dfg, target, c, first, k)[j] <= Amount(c, MostCost(dfg, target, last))
      {
        LaterCostsMore(dfg, target, first + j, last, c);
      }
      DearestForEach(Limit(c, options.budget), MostCosts(dfg, target, c, first, k), last + 1 - first,
                     Amount(c, MostCost(dfg, target, last)));
    }
  }

  lemma LaterCostsMore(dfg: TargetDFG, target: TargetModel, ii: nat, later: nat, c: Counter)
    requires ii <= later
    ensures Amount(c, MostCost(dfg, target, ii)) <= Amount(c, MostCost(dfg, target, later))
  {
    hide TreeCost, MostTiles;
    ProductGrows(ii, later, MostTiles(target, dfg.nodes));
    WiderCostsMore(ii * MostTiles(target, dfg.nodes), later * MostTiles(target, dfg.nodes), |dfg.edges|, |dfg.nodes|, c);
  }
}
