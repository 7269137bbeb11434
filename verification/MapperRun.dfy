// A whole mapping run: one search per II from the lower bound on, under fairly shared budgets.

module MapperRun {
  import opened Wrappers
  import opened Mesh
  import opened Target
  import opened Resources
  import opened Reservation
  import opened Mapping
  import opened Ledger
  import opened SearchBudget
  import opened Mapper
  import opened FairShares
  import opened Ordering
  import RouteSearch
  import MII

  datatype MapperStatus =
    | Mapped
    | InvalidTargetDFG
    | MIIAnalysisFailure
    | TargetContractError
    | NoMappingWithinIILimit
    | GlobalBudgetExceeded
    | RouteSearchBudgetExceeded
    | VerificationFailed(byChecker: bool)
    | Failed(fault: Fault)

  // `checked` says whether the caller checks complete mappings.
  datatype MapperOptions = MapperOptions(minII: nat, maxII: nat, budget: SearchLimits,
                                         routeOptions: RouteSearch.RouteOptions, checked: bool)

  datatype MapperResult = MapperResult(status: MapperStatus, mapping: Option<ModuloMapping>, startingMII: nat,
                                       finalII: nat, stats: Stats)

  // ----- The run -----

  /** The search at this II ran into a dead end everywhere. */
  ghost predicate FullyExhausted(dfg: TargetDFG, target: TargetModel, ii: nat, options: MapperOptions) {
    exists model: ResourceModel :: model.Valid() && model.target == target && model.ii == ii &&
      Task(dfg, target, model, options.routeOptions.allowVirtualHold, options.checked).DeadEnd(|dfg.nodes|, Untouched(model))
  }

  ghost function Untouched(model: ResourceModel): Snapshot {
    Snapshot(map[], map[], seq(|model.resources|, _ => None))
  }

  method AttemptII(dfg: TargetDFG, target: TargetModel, options: MapperOptions, ii: nat, limits: SearchLimits, stats: Stats)
    returns (outcome: SearchOutcome, mapping: Option<ModuloMapping>, stats': Stats)
    requires 0 < ii && target.Valid() && dfg.Valid(target) && dfg.targetName == target.name
    requires Within(stats, limits) && stats.maxSearchDepth <= |dfg.nodes|
    ensures stats'.maxSearchDepth <= |dfg.nodes| && Sane(outcome, options.checked)
    ensures outcome == Success ==>
      mapping.Some? && mapping.value.ii == ii && Legal(dfg, target, mapping.value)
    ensures outcome == Exhausted ==> FullyExhausted(dfg, target, ii, options)
    ensures outcome == RouteBudgetExceeded ==> TightRouting(options.routeOptions, target, ii)
    ensures outcome == InternalError(RouteSearchFailed) ==> LateRouting(dfg, target, ii)
    ensures Paid(stats, stats', limits, outcome, MostCost(dfg, target, ii), LeastTries(dfg, target, ii), |dfg.nodes|)
  {
    hide Paid, TightRouting, LateRouting, Sane, Within, TargetModel.Valid, TargetDFG.Valid, ResourceModel.Valid, Legal,
         MappingSearchState.Coherent;
    var model := BuildResourceModel(target, ii);
    var table := new ReservationTable(model);
    var state := new MappingSearchState(dfg, target, model, table, limits, options.routeOptions, options.checked, stats);
    StartCoherent(state, table.owners);
    outcome := state.Search(0);
    mapping, stats' := state.mapping, state.stats;
  }

  lemma StartCoherent(state: MappingSearchState, owners: seq<Option<Owner>>)
    requires 0 < state.ii && state.target.Valid() && state.dfg.Valid(state.target)
    requires state.dfg.targetName == state.target.name
    requires state.model.Valid() && state.model.target == state.target && state.model.ii == state.ii
    requires owners == seq(|state.model.resources|, _ => None)
    ensures state.Coherent(Snapshot(map[], map[], owners), {})
  {
    NothingClaimed(state.model, state.dfg, state.target);
    assert ClosedEdges(state.dfg, {}) == {};
  }

  // The range of IIs to try.
  function FirstII(mii: nat, options: MapperOptions): nat {
    if options.minII > mii then options.minII else mii
  }

  function LastII(mii: nat, options: MapperOptions): nat {
    if options.maxII == 0 then FirstII(mii, options) else options.maxII
  }

  // ----- The account of a run -----

  /** One II: its share of the budgets, the counters before and after, and how the search ended. */
  datatype Attempt = Attempt(ii: nat, limits: SearchLimits, before: Stats, outcome: SearchOutcome, after: Stats)

  // The limits are fair shares with n IIs still to go.
  predicate Shares(limits: SearchLimits, budget: SearchLimits, used: Stats, n: nat) {
    limits == SearchLimits(
      FairShareLimit(budget.nodeCandidateAttempts, used.nodeCandidateAttempts, n),
      FairShareLimit(budget.backtracks, used.backtracks, n),
      FairShareLimit(budget.routeSearchCalls, used.routeSearchCalls, n))
  }

  // The attempt ended for the reason it gives and cost what that costs.
  ghost predicate Justified(dfg: TargetDFG, target: TargetModel, options: MapperOptions, a: Attempt) {
    && Within(a.before, a.limits) && Sane(a.outcome, options.checked)
    && Paid(a.before, a.after, a.limits, a.outcome, MostCost(dfg, target, a.ii), LeastTries(dfg, target, a.ii), |dfg.nodes|)
    && (a.outcome == Exhausted ==> FullyExhausted(dfg, target, a.ii, options))
    && (a.outcome == RouteBudgetExceeded ==> TightRouting(options.routeOptions, target, a.ii))
    && (a.outcome == InternalError(RouteSearchFailed) ==> LateRouting(dfg, target, a.ii))
  }

  predicate MovesOn(outcome: SearchOutcome) {
    outcome == Exhausted || outcome == PerIIBudgetExceeded
  }

  // The IIs from `first` on, one after another; all but the last were exhausted or spent their share.
  ghost predicate Account(dfg: TargetDFG, target: TargetModel, options: MapperOptions, first: nat, last: nat,
                          trace: seq<Attempt>)
  {
    && (forall i :: 0 <= i < |trace| ==>
          trace[i].ii == first + i <= last && Justified(dfg, target, options, trace[i]) &&
          Shares(trace[i].limits, options.budget, trace[i].before, last - trace[i].ii + 1))
    && (trace != [] ==> trace[0].before == Stats(0, 0, 0, 0))
    && (forall i :: 0 <= i < |trace| - 1 ==> trace[i + 1].before == trace[i].after && MovesOn(trace[i].outcome))
  }

  // The account is complete: it ends with the last II or with an outcome that ends the run.
  ghost predicate Finished(first: nat, last: nat, trace: seq<Attempt>) {
    first + |trace| > last || (trace != [] && !MovesOn(trace[|trace| - 1].outcome))
  }

  function Spent(trace: seq<Attempt>): Stats {
    if trace == [] then Stats(0, 0, 0, 0) else trace[|trace| - 1].after
  }

  // At some II a share of a budget was used up.
  ghost predicate ShareSpent(trace: seq<Attempt>) {
    exists i :: 0 <= i < |trace| && trace[i].outcome == PerIIBudgetExceeded
  }

  lemma SomeSpent(trace: seq<Attempt>, a: Attempt)
    ensures ShareSpent(trace + [a]) <==> ShareSpent(trace) || a.outcome == PerIIBudgetExceeded
    ensures !ShareSpent([])
  {
    var more := trace + [a];
    assert forall i :: 0 <= i < |trace| ==> more[i] == trace[i];
    assert more[|trace|] == a;
  }

  // What a complete account amounts to.
  ghost function Verdict(trace: seq<Attempt>): MapperStatus {
    if trace == [] then NoMappingWithinIILimit
    else match trace[|trace| - 1].outcome
      case Success => Mapped
      case BudgetExceeded => GlobalBudgetExceeded
      case RouteBudgetExceeded => RouteSearchBudgetExceeded
      case VerificationFailure(byChecker) => VerificationFailed(byChecker)
      case InternalError(fault) => Failed(fault)
      case _ =>
        if ShareSpent(trace) then GlobalBudgetExceeded
        else NoMappingWithinIILimit
  }

  lemma NothingTried(dfg: TargetDFG, target: TargetModel, options: MapperOptions, first: nat, last: nat)
    ensures Account(dfg, target, options, first, last, []) && Spent([]) == Stats(0, 0, 0, 0)
    ensures first > last ==> Finished(first, last, []) && Verdict([]) == NoMappingWithinIILimit
  {
  }

  lemma TriedOneMore(dfg: TargetDFG, target: TargetModel, options: MapperOptions, first: nat, last: nat,
                     trace: seq<Attempt>, a: Attempt)
    requires Account(dfg, target, options, first, last, trace) && Justified(dfg, target, options, a)
    requires forall i :: 0 <= i < |trace| ==> MovesOn(trace[i].outcome)
    requires a.ii == first + |trace| <= last && a.before == Spent(trace)
    requires Shares(a.limits, options.budget, a.before, last - a.ii + 1)
    ensures Account(dfg, target, options, first, last, trace + [a]) && Spent(trace + [a]) == a.after
    ensures MovesOn(a.outcome) ==> forall i :: 0 <= i < |trace + [a]| ==> MovesOn((trace + [a])[i].outcome)
    ensures !MovesOn(a.outcome) ==> Finished(first, last, trace + [a])
  {
    hide Justified, Shares, MovesOn;
    var more := trace + [a];
    assert forall i :: 0 <= i < |trace| ==> more[i] == trace[i];
    forall i | 0 <= i < |more| - 1
      ensures more[i + 1].before == more[i].after && MovesOn(more[i].outcome)
    {
      if i + 1 < |trace| {
        assert trace[i + 1].before == trace[i].after;
      }
    }
  }

  lemma LastSays(trace: seq<Attempt>, a: Attempt)
    ensures a.outcome == Success ==> Verdict(trace + [a]) == Mapped
    ensures a.outcome == BudgetExceeded ==> Verdict(trace + [a]) == GlobalBudgetExceeded
    ensures a.outcome == RouteBudgetExceeded ==> Verdict(trace + [a]) == RouteSearchBudgetExceeded
    ensures a.outcome.VerificationFailure? ==> Verdict(trace + [a]) == VerificationFailed(a.outcome.byChecker)
    ensures a.outcome.InternalError? ==> Verdict(trace + [a]) == Failed(a.outcome.fault)
  {
  }

  lemma AllTried(first: nat, last: nat, trace: seq<Attempt>, spent: bool)
    requires first <= last && |trace| == last + 1 - first && forall i :: 0 <= i < |trace| ==> MovesOn(trace[i].outcome)
    requires spent <==> ShareSpent(trace)
    ensures Finished(first, last, trace)
    ensures Verdict(trace) == if spent then GlobalBudgetExceeded else NoMappingWithinIILimit
  {
  }

  // What the status says about the IIs tried follows from the account.
  lemma NoMappingMeansExhausted(dfg: TargetDFG, target: TargetModel, options: MapperOptions, first: nat, last: nat,
                                trace: seq<Attempt>)
    requires Account(dfg, target, options, first, last, trace) && Finished(first, last, trace)
    requires Verdict(trace) == NoMappingWithinIILimit
    ensures forall ii :: first <= ii <= last ==> FullyExhausted(dfg, target, ii, options)
  {
    hide FullyExhausted, Shares;
    assert !ShareSpent(trace);
    forall ii | first <= ii <= last
      ensures FullyExhausted(dfg, target, ii, options)
    {
      var i := ii - first;
      assert trace[i].ii == first + i && Justified(dfg, target, options, trace[i]);
      assert trace[i].outcome == Exhausted;
    }
  }

  /**
   * Whatever the mapper returns is legal, lies between the bounds asked for, and was paid for within budget; the trace
   * accounts for every II tried, and the status is what the account amounts to.
   */
  method Map(dfg: TargetDFG, target: TargetModel, options: MapperOptions)
    returns (result: MapperResult, ghost trace: seq<Attempt>)
    requires target.Valid()
    ensures Within(result.stats, options.budget) && result.stats.maxSearchDepth <= |dfg.nodes|
    ensures result.status == Mapped ==>
      && dfg.Valid(target) && dfg.targetName == target.name
      && result.mapping.Some? && Legal(dfg, target, result.mapping.value)
      && result.mapping.value.ii == result.finalII
      && result.startingMII <= result.finalII && options.minII <= result.finalII
      && (options.maxII != 0 ==> result.finalII <= options.maxII)
    ensures result.status == InvalidTargetDFG <==> !dfg.Valid(target) || dfg.targetName != target.name
    ensures result.status in {InvalidTargetDFG, MIIAnalysisFailure} <==> result.startingMII == 0
    ensures result.status == MIIAnalysisFailure ==> MII.AnalysisFails(dfg, target)
    ensures result.startingMII == 0 ==> trace == []
    ensures result.startingMII > 0 ==>
      var first, last := FirstII(result.startingMII, options), LastII(result.startingMII, options);
      && MII.IsBound(dfg, target, result.startingMII)
      && Account(dfg, target, options, first, last, trace) && Finished(first, last, trace)
      && result.status == Verdict(trace) && result.stats == Spent(trace)
      && (trace != [] ==> result.finalII == trace[|trace| - 1].ii)
    ensures MII.NothingBelow(dfg, target, result.startingMII)
    ensures result.status == NoMappingWithinIILimit ==>
      forall ii :: FirstII(result.startingMII, options) <= ii <= LastII(result.startingMII, options) ==>
        FullyExhausted(dfg, target, ii, options)
  {
    hide *;
    var none := Stats(0, 0, 0, 0);
    result, trace := MapperResult(InvalidTargetDFG, None, 0, 0, none), [];
    AboutNothing(options.budget);
    MII.NothingBelowZero(dfg, target);
    var mii := MII.Analyze(dfg, target);
    if mii.status != MII.Success {
      MII.AnalysisExplained(dfg, target, mii);
      if mii.status != MII.InvalidTargetDFG {
        result := result.(status := MIIAnalysisFailure);
      }
      return;
    }
    MII.BoundsCombine(dfg, target, mii.resourceMII, mii.recurrenceMII);
    MII.BoundFound(dfg, target, mii);
    if mii.mii == 0 || mii.mii == U32_MAX {
      return result.(status := MIIAnalysisFailure), [];
    }
    var minII := if options.minII == 0 then mii.mii else options.minII;
    var startII := if mii.mii > minII then mii.mii else minII;
    var maxII := if options.maxII == 0 then startII else options.maxII;
    AboutRange(mii.mii, options, startII, maxII);
    NothingTried(dfg, target, options, startII, maxII);
    if maxII < startII {
      result := MapperResult(NoMappingWithinIILimit, None, mii.mii, 0, none);
      NoMappingMeansExhausted(dfg, target, options, startII, maxII, trace);
      return;
    }
    result, trace := TryEveryII(dfg, target, options, mii.mii, startII, maxII);
    if result.status == NoMappingWithinIILimit {
      NoMappingMeansExhausted(dfg, target, options, startII, maxII, trace);
    }
    FinalIsInRange(dfg, target, options, startII, maxII, trace);
  }

  lemma AboutNothing(budget: SearchLimits)
    ensures Within(Stats(0, 0, 0, 0), budget)
  {
  }

  lemma AboutRange(mii: nat, options: MapperOptions, startII: nat, maxII: nat)
    requires startII == if mii > (if options.minII == 0 then mii else options.minII) then mii
                        else if options.minII == 0 then mii else options.minII
    requires maxII == if options.maxII == 0 then startII else options.maxII
    ensures startII == FirstII(mii, options) && maxII == LastII(mii, options) && mii <= startII && options.minII <= startII
  {
  }

  lemma FinalIsInRange(dfg: TargetDFG, target: TargetModel, options: MapperOptions, first: nat, last: nat,
                       trace: seq<Attempt>)
    requires Account(dfg, target, options, first, last, trace) && trace != []
    ensures first <= trace[|trace| - 1].ii <= last
  {
    hide Justified, Shares, MovesOn;
    assert trace[|trace| - 1].ii == first + (|trace| - 1);
  }

  // One II after another until the search at one of them ends the run.
  method TryEveryII(dfg: TargetDFG, target: TargetModel, options: MapperOptions, mii: nat, startII: nat, maxII: nat)
    returns (result: MapperResult, ghost trace: seq<Attempt>)
    requires target.Valid() && dfg.Valid(target) && dfg.targetName == target.name && 0 < startII <= maxII
    ensures Within(result.stats, options.budget) && result.stats.maxSearchDepth <= |dfg.nodes|
    ensures result.status == Mapped ==>
      result.mapping.Some? && Legal(dfg, target, result.mapping.value) && result.mapping.value.ii == result.finalII
    ensures result.startingMII == mii && trace != [] && result.finalII == trace[|trace| - 1].ii
    ensures result.status !in {InvalidTargetDFG, MIIAnalysisFailure}
    ensures Account(dfg, target, options, startII, maxII, trace) && Finished(startII, maxII, trace)
    ensures result.status == Verdict(trace) && result.stats == Spent(trace)
  {
    hide *;
    AboutNothing(options.budget);
    NothingTried(dfg, target, options, startII, maxII);
    trace := [];
    assert !ShareSpent(trace) by {
      SomeSpent(trace, Attempt(0, SearchLimits(0, 0, 0), Stats(0, 0, 0, 0), Exhausted, Stats(0, 0, 0, 0)));
    }
    var stats, perIIBudgetExceeded, ii := Stats(0, 0, 0, 0), false, startII;
    while ii <= maxII
      invariant startII <= ii <= maxII + 1 && |trace| == ii - startII
      invariant Within(stats, options.budget) && stats.maxSearchDepth <= |dfg.nodes| && stats == Spent(trace)
      invariant Account(dfg, target, options, startII, maxII, trace)
      invariant forall i :: 0 <= i < |trace| ==> MovesOn(trace[i].outcome)
      invariant perIIBudgetExceeded <==> ShareSpent(trace)
      invariant trace != [] ==> trace[|trace| - 1].ii == ii - 1
      decreases maxII - ii
    {
      var limits := SharedLimits(options.budget, stats, maxII - ii + 1);
      var outcome, mapping, stats';
      outcome, mapping, stats' := AttemptII(dfg, target, options, ii, limits, stats);
      ghost var attempt := Attempt(ii, limits, stats, outcome, stats');
      AttemptJustified(dfg, target, options, attempt);
      TriedOneMore(dfg, target, options, startII, maxII, trace, attempt);
      LastSays(trace, attempt);
      AboutMovesOn(outcome);
      SomeSpent(trace, attempt);
      trace := trace + [attempt];
      stats := stats';
      match outcome {
        case Success => return MapperResult(Mapped, mapping, mii, ii, stats), trace;
        case PerIIBudgetExceeded => perIIBudgetExceeded := true;
        case Exhausted =>
        case BudgetExceeded => return MapperResult(GlobalBudgetExceeded, None, mii, ii, stats), trace;
        case RouteBudgetExceeded => return MapperResult(RouteSearchBudgetExceeded, None, mii, ii, stats), trace;
        case VerificationFailure(byChecker) =>
          return MapperResult(VerificationFailed(byChecker), None, mii, ii, stats), trace;
        case InternalError(fault) => return MapperResult(Failed(fault), None, mii, ii, stats), trace;
      }
      ii := ii + 1;
    }
    AllTried(startII, maxII, trace, perIIBudgetExceeded);
    result := MapperResult(if perIIBudgetExceeded then GlobalBudgetExceeded else NoMappingWithinIILimit, None, mii,
                           maxII, stats);
  }

  lemma AboutMovesOn(outcome: SearchOutcome)
    ensures MovesOn(outcome) <==> outcome == Exhausted || outcome == PerIIBudgetExceeded
  {
  }

  lemma AttemptJustified(dfg: TargetDFG, target: TargetModel, options: MapperOptions, a: Attempt)
    requires Within(a.before, a.limits) && Sane(a.outcome, options.checked)
    requires Paid(a.before, a.after, a.limits, a.outcome, MostCost(dfg, target, a.ii), LeastTries(dfg, target, a.ii),
                  |dfg.nodes|)
    requires a.outcome == Exhausted ==> FullyExhausted(dfg, target, a.ii, options)
    requires a.outcome == RouteBudgetExceeded ==> TightRouting(options.routeOptions, target, a.ii)
    requires a.outcome == InternalError(RouteSearchFailed) ==> LateRouting(dfg, target, a.ii)
    ensures Justified(dfg, target, options, a) && Within(a.after, a.limits)
  {
    hide FullyExhausted, TightRouting, LateRouting, Within, Grown, Spends, Short, MostCost, LeastTries;
  }

  // This II's part of each budget.
  method SharedLimits(budget: SearchLimits, stats: Stats, attemptsRemaining: nat) returns (limits: SearchLimits)
    requires Within(stats, budget)
    ensures Within(stats, limits) && Shares(limits, budget, stats, attemptsRemaining)
    ensures forall s: Stats :: Within(s, limits) ==> Within(s, budget)
  {
    LimitWithin(budget.nodeCandidateAttempts, stats.nodeCandidateAttempts, attemptsRemaining);
    LimitWithin(budget.backtracks, stats.backtracks, attemptsRemaining);
    LimitWithin(budget.routeSearchCalls, stats.routeSearchCalls, attemptsRemaining);
    limits := SearchLimits(
      FairShareLimit(budget.nodeCandidateAttempts, stats.nodeCandidateAttempts, attemptsRemaining),
      FairShareLimit(budget.backtracks, stats.backtracks, attemptsRemaining),
      FairShareLimit(budget.routeSearchCalls, stats.routeSearchCalls, attemptsRemaining));
  }
}
