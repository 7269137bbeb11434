// What a search may spend at one II, and what it can cost at most and at least.

module SearchBudget {
  import opened Target
  import opened ResourceBound

  datatype Fault = RouteSearchFailed | RouteNotReservable | MaterializeFailed | CheckerAborted

  datatype SearchOutcome =
    | Success
    | Exhausted
    | PerIIBudgetExceeded
    | BudgetExceeded
    | RouteBudgetExceeded
    | VerificationFailure(byChecker: bool)
    | InternalError(fault: Fault)

  // No route is ever found unreservable, no complete state fails to become a mapping,
  // and no mapping fails the final verification: only the caller's checker, if there is one, can say so.
  predicate Sane(outcome: SearchOutcome, checked: bool) {
    && (outcome == BudgetExceeded ==> checked)
    && (outcome.InternalError? ==> outcome.fault == RouteSearchFailed || (checked && outcome.fault == CheckerAborted))
    && (outcome.VerificationFailure? ==> checked && outcome.byChecker)
  }

  // What entering a candidate may come to.
  predicate Entering(outcome: SearchOutcome) {
    outcome in {Success, Exhausted, PerIIBudgetExceeded, RouteBudgetExceeded, InternalError(RouteSearchFailed)}
  }

  // What only a complete mapping can come to.
  predicate Concluding(outcome: SearchOutcome) {
    outcome in {Success, BudgetExceeded, InternalError(CheckerAborted)} || outcome.VerificationFailure?
  }

  lemma AboutOutcomes()
    ensures forall o, checked :: Sane(o, checked) <==>
      && (o == BudgetExceeded ==> checked)
      && (o.InternalError? ==> o.fault == RouteSearchFailed || (checked && o.fault == CheckerAborted))
      && (o.VerificationFailure? ==> checked && o.byChecker)
    ensures forall o :: Entering(o) <==>
      o == Success || o == Exhausted || o == PerIIBudgetExceeded || o == RouteBudgetExceeded ||
      o == InternalError(RouteSearchFailed)
  {
  }

  lemma EnteringIsSane(outcome: SearchOutcome, checked: bool)
    requires Entering(outcome)
    ensures Sane(outcome, checked)
  {
  }

  /** The three budgets of one II, and what has been spent of them so far. */
  datatype SearchLimits = SearchLimits(nodeCandidateAttempts: nat, backtracks: nat, routeSearchCalls: nat)

  datatype Stats = Stats(nodeCandidateAttempts: nat, backtracks: nat, routeSearchCalls: nat, maxSearchDepth: nat)

  predicate Within(stats: Stats, limits: SearchLimits) {
    && stats.nodeCandidateAttempts <= limits.nodeCandidateAttempts
    && stats.backtracks <= limits.backtracks
    && stats.routeSearchCalls <= limits.routeSearchCalls
  }

  // No counter ever runs backwards.
  predicate Grown(before: Stats, after: Stats) {
    && before.nodeCandidateAttempts <= after.nodeCandidateAttempts
    && before.backtracks <= after.backtracks
    && before.routeSearchCalls <= after.routeSearchCalls
    && before.maxSearchDepth <= after.maxSearchDepth
  }

  // Only route searches were spent.
  predicate OnlyRouted(before: Stats, after: Stats) {
    after == before.(routeSearchCalls := after.routeSearchCalls) && before.routeSearchCalls <= after.routeSearchCalls
  }

  lemma AboutStats()
    ensures forall a, b :: OnlyRouted(a, b) <==>
      a.nodeCandidateAttempts == b.nodeCandidateAttempts && a.backtracks == b.backtracks &&
      a.routeSearchCalls <= b.routeSearchCalls && a.maxSearchDepth == b.maxSearchDepth
    ensures forall a, b :: Grown(a, b) <==>
      a.nodeCandidateAttempts <= b.nodeCandidateAttempts && a.backtracks <= b.backtracks &&
      a.routeSearchCalls <= b.routeSearchCalls && a.maxSearchDepth <= b.maxSearchDepth
  {
  }

  lemma SameDepth(before: Stats, after: Stats)
    requires OnlyRouted(before, after)
    ensures after.maxSearchDepth == before.maxSearchDepth
  {
  }

  // ----- What a search can cost -----

  datatype Expense = Expense(attempts: nat, backtracks: nat, routeCalls: nat)

  function Times(k: nat, c: Expense): Expense {
    Expense(k * c.attempts, k * c.backtracks, k * c.routeCalls)
  }

  // One candidate: an attempt, a route call for each edge, all that follows below, and a backtrack.
  function OneTry(below: Expense, edges: nat): Expense {
    Expense(1 + below.attempts, 1 + below.backtracks, edges + below.routeCalls)
  }

  /** Trying `width` candidates for each of `left` nodes, one below the other. */
  function TreeCost(width: nat, edges: nat, left: nat): Expense {
    if left == 0 then Expense(0, 0, 0) else Times(width, OneTry(TreeCost(width, edges, left - 1), edges))
  }

  // In closed form: as many backtracks as attempts, and each attempt may route every edge.
  lemma {:induction false} TreeCostIs(width: nat, edges: nat, left: nat)
    ensures var cost := TreeCost(width, edges, left);
      cost.backtracks == cost.attempts && cost.routeCalls == edges * cost.attempts
    ensures left > 0 ==>
      TreeCost(width, edges, left).attempts == width * (1 + TreeCost(width, edges, left - 1).attempts)
  {
    if left > 0 {
      TreeCostIs(width, edges, left - 1);
      Regroup(width, edges, TreeCost(width, edges, left - 1).attempts);
    }
  }

  lemma Regroup(width: nat, edges: nat, below: nat)
    ensures width * (edges + edges * below) == edges * (width * (1 + below))
  {
  }

  // The most and the fewest tiles that one of the nodes can be placed on.
  ghost function MostTiles(target: TargetModel, nodes: seq<TargetNode>): nat {
    if nodes == [] then 0
    else
      var others, own := MostTiles(target, nodes[1..]), |SupportingTiles(target, nodes[0].operation)|;
      if own > others then own else others
  }

  ghost function FewestTiles(target: TargetModel, nodes: seq<TargetNode>): nat {
    if nodes == [] then 0
    else
      var others, own := FewestTiles(target, nodes[1..]), |SupportingTiles(target, nodes[0].operation)|;
      if |nodes| == 1 || own < others then own else others
  }

  lemma {:induction false} TilesBetween(target: TargetModel, nodes: seq<TargetNode>, node: TargetNode)
    requires node in nodes
    ensures FewestTiles(target, nodes) <= |SupportingTiles(target, node.operation)| <= MostTiles(target, nodes)
  {
    if node in nodes[1..] {
      TilesBetween(target, nodes[1..], node);
    }
  }

  /** The most that a search at this II can cost, and the fewest candidates an exhausted one has tried. */
  ghost function MostCost(dfg: TargetDFG, target: TargetModel, ii: nat): Expense {
    TreeCost(ii * MostTiles(target, dfg.nodes), |dfg.edges|, |dfg.nodes|)
  }

  ghost function LeastTries(dfg: TargetDFG, target: TargetModel, ii: nat): nat {
    ii * FewestTiles(target, dfg.nodes)
  }

  predicate Spends(before: Stats, after: Stats, most: Expense) {
    && after.nodeCandidateAttempts <= before.nodeCandidateAttempts + most.attempts
    && after.backtracks <= before.backtracks + most.backtracks
    && after.routeSearchCalls <= before.routeSearchCalls + most.routeCalls
  }

  // A budget ran out before the most was spent.
  predicate Short(before: Stats, after: Stats, limits: SearchLimits, most: Expense) {
    || limits.nodeCandidateAttempts <= after.nodeCandidateAttempts < before.nodeCandidateAttempts + most.attempts
    || limits.backtracks <= after.backtracks < before.backtracks + most.backtracks
    || limits.routeSearchCalls <= after.routeSearchCalls < before.routeSearchCalls + most.routeCalls
  }

  /**
   * What an outcome costs: never more than the limits nor than `most`, a budget only runs out where `most` exceeds it,
   * exhaustion takes `least` attempts at least, and a complete mapping one for each of the nodes placed.
   */
  predicate Paid(before: Stats, after: Stats, limits: SearchLimits, outcome: SearchOutcome, most: Expense, least: nat,
                 placed: nat)
  {
    && Within(after, limits) && Grown(before, after) && Spends(before, after, most)
    && (outcome != PerIIBudgetExceeded && placed > 0 ==> before.nodeCandidateAttempts < after.nodeCandidateAttempts)
    && (outcome == PerIIBudgetExceeded ==> Short(before, after, limits, most))
    && (outcome == Exhausted ==> after.nodeCandidateAttempts >= before.nodeCandidateAttempts + least)
    && (Concluding(outcome) ==> after.nodeCandidateAttempts >= before.nodeCandidateAttempts + placed)
  }

  lemma AboutPaid(before: Stats, after: Stats, limits: SearchLimits, outcome: SearchOutcome, most: Expense, least: nat,
                  placed: nat)
    requires Paid(before, after, limits, outcome, most, least, placed)
    ensures Within(after, limits) && Grown(before, after)
    ensures before.nodeCandidateAttempts >= limits.nodeCandidateAttempts && placed > 0 ==> outcome == PerIIBudgetExceeded
  {
  }

  // ----- Adding costs up -----

  lemma NothingPlaced(before: Stats, depth: nat, limits: SearchLimits, outcome: SearchOutcome)
    requires outcome != PerIIBudgetExceeded && Within(before, limits) && before.maxSearchDepth <= depth
    ensures Paid(before, before.(maxSearchDepth := depth), limits, outcome, Expense(0, 0, 0), 0, 0)
  {
  }

  lemma NoAttemptLeft(stats: Stats, limits: SearchLimits, below: Expense, edges: nat, placed: nat)
    requires stats.nodeCandidateAttempts >= limits.nodeCandidateAttempts && Within(stats, limits)
    ensures Paid(stats, stats, limits, PerIIBudgetExceeded, OneTry(below, edges), 1, placed)
  {
  }

  // The candidate was not entered.
  lemma OnlyTried(before: Stats, after: Stats, limits: SearchLimits, outcome: SearchOutcome, below: Expense, edges: nat,
                  placed: nat)
    requires OnlyRouted(before.(nodeCandidateAttempts := before.nodeCandidateAttempts + 1), after)
    requires after.routeSearchCalls <= before.routeSearchCalls + edges
    requires outcome == PerIIBudgetExceeded ==>
      limits.routeSearchCalls <= after.routeSearchCalls < before.routeSearchCalls + edges
    requires Entering(outcome) && outcome != Success && Within(after, limits)
    ensures Paid(before, after, limits, outcome, OneTry(below, edges), 1, placed)
  {
  }

  // The search below the candidate has returned and its outcome is passed on.
  lemma PassedOn(before: Stats, after: Stats, limits: SearchLimits, outcome: SearchOutcome, below: Expense, least: nat,
                 placed: nat)
    requires Paid(before, after, limits, outcome, below, least, placed) && outcome != Exhausted
    ensures Paid(before, after, limits, outcome, below.(backtracks := below.backtracks + 1), 0, placed)
  {
  }

  lemma SteppedBack(before: Stats, after: Stats, limits: SearchLimits, below: Expense, least: nat, placed: nat)
    requires Paid(before, after, limits, Exhausted, below, least, placed)
    ensures after.backtracks >= limits.backtracks ==>
      Paid(before, after, limits, PerIIBudgetExceeded, below.(backtracks := below.backtracks + 1), 0, placed)
    ensures after.backtracks < limits.backtracks ==>
      Paid(before, after.(backtracks := after.backtracks + 1), limits, Exhausted,
           below.(backtracks := below.backtracks + 1), 0, placed)
  {
  }

  lemma TriedAndDescended(before: Stats, entered: Stats, after: Stats, limits: SearchLimits, outcome: SearchOutcome,
                          below: Expense, edges: nat, placed: nat)
    requires OnlyRouted(before.(nodeCandidateAttempts := before.nodeCandidateAttempts + 1), entered)
    requires entered.routeSearchCalls <= before.routeSearchCalls + edges
    requires Paid(entered, after, limits, outcome, below.(backtracks := below.backtracks + 1), 0, placed)
    ensures Paid(before, after, limits, outcome, OneTry(below, edges), 1, placed + 1)
  {
  }

  // After `tries` candidates, none of them a success.
  predicate Tried(before: Stats, now: Stats, limits: SearchLimits, unit: Expense, tries: nat) {
    && Within(now, limits) && Grown(before, now) && Spends(before, now, Times(tries, unit))
    && now.nodeCandidateAttempts >= before.nodeCandidateAttempts + tries
  }

  lemma NoneTried(before: Stats, depth: nat, limits: SearchLimits, unit: Expense)
    requires Within(before, limits) && before.maxSearchDepth <= depth
    ensures Tried(before, before.(maxSearchDepth := depth), limits, unit, 0)
  {
  }

  lemma OneMore(tries: nat, unit: Expense)
    ensures Times(tries + 1, unit) ==
            Expense(Times(tries, unit).attempts + unit.attempts, Times(tries, unit).backtracks + unit.backtracks,
                 Times(tries, unit).routeCalls + unit.routeCalls)
  {
  }

  lemma ProductGrows(k: nat, m: nat, x: nat)
    requires k <= m
    ensures k * x <= m * x
  {
    assert m * x == k * x + (m - k) * x;
  }

  lemma MoreCostMore(tries: nat, width: nat, unit: Expense)
    requires tries <= width
    ensures Times(tries, unit).attempts <= Times(width, unit).attempts
    ensures Times(tries, unit).backtracks <= Times(width, unit).backtracks
    ensures Times(tries, unit).routeCalls <= Times(width, unit).routeCalls
  {
    ProductGrows(tries, width, unit.attempts);
    ProductGrows(tries, width, unit.backtracks);
    ProductGrows(tries, width, unit.routeCalls);
  }

  lemma TriedOneMore(before: Stats, now: Stats, after: Stats, limits: SearchLimits, outcome: SearchOutcome, unit: Expense,
                     tries: nat, width: nat, least: nat, placed: nat)
    requires Tried(before, now, limits, unit, tries) && tries < width
    requires Paid(now, after, limits, outcome, unit, 1, placed) && placed > 0
    ensures Within(after, limits)
    ensures outcome == Exhausted ==> Tried(before, after, limits, unit, tries + 1)
    ensures outcome != Exhausted ==> Paid(before, after, limits, outcome, Times(width, unit), least, placed)
  {
    OneMore(tries, unit);
    MoreCostMore(tries + 1, width, unit);
    hide Times;
  }

  lemma AllTried(before: Stats, after: Stats, limits: SearchLimits, unit: Expense, tries: nat, width: nat, least: nat,
                 placed: nat)
    requires Tried(before, after, limits, unit, tries) && least <= tries <= width && 0 < tries
    ensures Paid(before, after, limits, Exhausted, Times(width, unit), least, placed)
  {
    MoreCostMore(tries, width, unit);
    hide Times;
  }

  lemma TreeCostMore(width: nat, edges: nat, left: nat)
    requires left > 0
    ensures TreeCost(width, edges, left) == Times(width, OneTry(TreeCost(width, edges, left - 1), edges))
  {
  }
}
