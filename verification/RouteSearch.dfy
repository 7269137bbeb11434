// Shortest-route search over (tile, slot) states: optimal when it succeeds, complete when it finds nothing.

module RouteSearch {
  import opened Wrappers
  import opened Mesh
  import opened Target
  import opened Resources
  import opened Reservation
  import opened Mapping
  import opened Ledger
  import opened Walks
  import opened RouteStates
  import opened RouteGraph
  import opened PlainLegality
  import Verifier
  import ModuloArithmetic

  const U64_MAX: int := 0xFFFF_FFFF_FFFF_FFFF

  datatype RouteStatus =
    | Success
    | NoPath
    | BudgetExceeded
    | InvalidInput
    | UnsupportedEdge
    | TargetContractError
    | InternalError

  datatype RouteResult = RouteResult(status: RouteStatus, plan: Option<TransportPlan>)

  datatype Expansion = Continue | OutOfBudget | CostOverflow

  function HoldCycles(actions: seq<TransportAction>): nat {
    if actions == [] then 0
    else
      var last := actions[|actions| - 1];
      HoldCycles(actions[..|actions| - 1]) +
      (if last.VirtualHold? && last.capture <= last.release then last.release - last.capture else 0)
  }

  function HopCount(actions: seq<TransportAction>): nat {
    if actions == [] then 0
    else HopCount(actions[..|actions| - 1]) + (if actions[|actions| - 1].LinkStep? then 1 else 0)
  }

  function PlanCost(plan: TransportPlan): Cost {
    Cost(plan.requiredSeparation, HoldCycles(plan.actions), HopCount(plan.actions))
  }

  // The plan is a free walk to the goal, spelled as link steps and merged holds.
  ghost predicate Carries(t: Terrain, goal: TileCoord, plan: TransportPlan)
    requires t.Valid()
  {
    && ValidRoute(t.ctx, plan.actions, t.start, goal, plan.requiredSeparation)
    && t.FreeWalk(Unroll(plan.actions))
    && (forall r :: r in LinksOf(t.ctx, plan.actions) ==> Verifier.FreeLink(t.model, t.owners, r))
    && plan.domain == t.ctx.domain
  }

  // No free walk to the goal is cheaper.
  ghost predicate Optimal(t: Terrain, goal: TileCoord, cost: Cost) {
    forall moves :: t.FreeWalk(moves) && Walk(t.ctx, moves, t.start).value.tile == goal ==> !Before(t.CostOf(moves), cost)
  }

  /** No other plan arrives earlier, and none that arrives as early spends fewer cycles waiting. */
  ghost predicate Fastest(t: Terrain, goal: TileCoord, plan: TransportPlan)
    requires t.Valid()
  {
    forall other :: Carries(t, goal, other) ==>
      && plan.requiredSeparation <= other.requiredSeparation
      && (plan.requiredSeparation == other.requiredSeparation ==> HoldCycles(plan.actions) <= HoldCycles(other.actions))
  }

  lemma CostSnoc(t: Terrain, moves: seq<Move>, move: Move)
    ensures t.CostOf(moves + [move]) == t.Add(move, t.CostOf(moves))
  {
    assert (moves + [move])[..|moves|] == moves;
  }

  lemma {:induction false} WaitsCost(t: Terrain, moves: seq<Move>, n: nat)
    ensures t.CostOf(moves + Waits(n)) == Cost(t.CostOf(moves).elapsed + n, t.CostOf(moves).holds + n, t.CostOf(moves).hops)
  {
    if n == 0 {
      assert moves + Waits(0) == moves;
    } else {
      assert Waits(n) == Waits(n - 1) + [Wait];
      hide Waits, Terrain.CostOf;
      WaitsCost(t, moves, n - 1);
      assert moves + Waits(n) == (moves + Waits(n - 1)) + [Wait];
      CostSnoc(t, moves + Waits(n - 1), Wait);
    }
  }

  lemma ActionCost(t: Terrain, moves: seq<Move>, action: TransportAction, here: Availability)
    requires Perform(t.ctx, action, here).Some? && t.CostOf(moves).elapsed == here.elapsed
    ensures var cost, more := t.CostOf(moves), t.CostOf(moves + UnrollAction(action));
      && more.elapsed == Perform(t.ctx, action, here).value.elapsed
      && more.holds == cost.holds + (if action.VirtualHold? then action.release - action.capture else 0)
      && more.hops == cost.hops + (if action.LinkStep? then 1 else 0)
  {
    hide Terrain.CostOf, Waits;
    match action
    case LinkStep(_, _, direction, _) => CostSnoc(t, moves, Hop(direction));
    case VirtualHold(_, _, capture, release) => WaitsCost(t, moves, release - capture);
  }

  lemma LastAction(ctx: RouteContext, actions: seq<TransportAction>, start: Availability)
    requires actions != [] && Follow(ctx, actions, start).Some?
    ensures var init, last := actions[..|actions| - 1], actions[|actions| - 1];
      && Follow(ctx, init, start).Some?
      && Follow(ctx, actions, start) == Perform(ctx, last, Follow(ctx, init, start).value)
      && Unroll(actions) == Unroll(init) + UnrollAction(last)
      && (last.VirtualHold? ==> last.capture <= last.release)
      && HoldCycles(actions) == HoldCycles(init) + (if last.VirtualHold? then last.release - last.capture else 0)
      && HopCount(actions) == HopCount(init) + (if last.LinkStep? then 1 else 0)
  {
    hide UnrollAction;
  }

  lemma {:induction false} CostOfPlan(t: Terrain, actions: seq<TransportAction>)
    requires Follow(t.ctx, actions, t.start).Some?
    ensures t.CostOf(Unroll(actions)) ==
            Cost(Follow(t.ctx, actions, t.start).value.elapsed, HoldCycles(actions), HopCount(actions))
  {
    if actions != [] {
      hide *;
      LastAction(t.ctx, actions, t.start);
      var init, last := actions[..|actions| - 1], actions[|actions| - 1];
      CostOfPlan(t, init);
      ActionCost(t, Unroll(init), last, Follow(t.ctx, init, t.start).value);
    }
  }

  lemma PlanIsWalk(t: Terrain, goal: TileCoord, plan: TransportPlan)
    requires t.Valid() && Carries(t, goal, plan)
    ensures t.FreeWalk(Unroll(plan.actions)) && Walk(t.ctx, Unroll(plan.actions), t.start).value.tile == goal
    ensures t.CostOf(Unroll(plan.actions)) == Cost(plan.requiredSeparation, HoldCycles(plan.actions), HopCount(plan.actions))
  {
    hide Terrain.FreeWalk, Walk, WalkLinks, Follow, LinksOf, HoldCycles, HopCount, Unroll;
    UnrollWalks(t.ctx, plan.actions, t.start);
    CostOfPlan(t, plan.actions);
  }

  lemma OptimalIsFastest(t: Terrain, goal: TileCoord, plan: TransportPlan)
    requires t.Valid() && Optimal(t, goal, PlanCost(plan))
    ensures Fastest(t, goal, plan)
  {
    hide Terrain.FreeWalk, Walk, Carries, HoldCycles, HopCount, Unroll, Terrain.CostOf;
    forall other | Carries(t, goal, other)
      ensures plan.requiredSeparation <= other.requiredSeparation
      ensures plan.requiredSeparation == other.requiredSeparation ==> HoldCycles(plan.actions) <= HoldCycles(other.actions)
    {
      PlanIsWalk(t, goal, other);
    }
  }

  ghost predicate Unreachable(t: Terrain, goal: TileCoord) {
    forall moves :: t.FreeWalk(moves) ==> Walk(t.ctx, moves, t.start).value.tile != goal
  }

  // The elapsed time after so many of the longest moves.
  function Span(t: Terrain, moves: nat): nat {
    t.start.elapsed + moves * t.ctx.target.hopLatency
  }

  // Every free walk to the goal fills the 32-bit fields of plans and costs, and crossing all states once may do so.
  ghost predicate TooLate(t: Terrain, goal: TileCoord) {
    && (forall moves :: t.FreeWalk(moves) && Walk(t.ctx, moves, t.start).value.tile == goal ==>
          Walk(t.ctx, moves, t.start).value.elapsed >= U32_MAX)
    && Span(t, Count(t)) > U32_MAX
  }

  predicate AtLimit(cost: Cost) {
    cost.elapsed > U32_MAX || cost.holds >= U32_MAX || cost.hops >= U32_MAX
  }

  // Every label is the cost of a free walk to its state.
  lemma {:induction false} LabelIsWalk(t: Terrain, goal: TileCoord, l: Labels, queue: seq<QueueEntry>,
                                       expanding: Option<nat>, done: set<Move>, s: nat) returns (moves: seq<Move>)
    requires Invariant(t, goal, l, queue, expanding, done) && s < Count(t) && l.best[s].Some?
    ensures t.FreeWalk(moves) && StateAt(t.ctx, Walk(t.ctx, moves, t.start).value) == StateOf(t, s)
    ensures t.CostOf(moves) == l.best[s].value
    decreases l.best[s].value.elapsed
  {
    hide AllSettled, Queued, StateId, StateCount, StateFor, Terrain.Open, Advance, Terrain.Next, WalkLinks;
    assert Grounded(t, l, s);
    if s == StartId(t) {
      moves := [];
      StartIsItsState(t);
    } else {
      var from := l.predecessors[s];
      var before := LabelIsWalk(t, goal, l, queue, expanding, done, from.previous);
      moves := before + [from.move];
      t.FreeWalkSnoc(before, from.move);
    }
  }

  lemma StartIsItsState(t: Terrain)
    requires t.Valid()
    ensures StartId(t) < Count(t) && StateOf(t, StartId(t)) == StateAt(t.ctx, t.start)
    ensures t.FreeWalk([]) && Walk(t.ctx, [], t.start) == Some(t.start)
  {
    hide StateId, StateCount, StateFor;
    StateRoundTrip(t.ctx.target, t.ctx.ii, StateAt(t.ctx, t.start));
  }

  // Waiting cycles and hops all take time.
  lemma {:induction false} CostTakesTime(t: Terrain, moves: seq<Move>)
    requires 0 < t.ctx.target.hopLatency
    ensures t.CostOf(moves).elapsed >= t.CostOf(moves).holds + t.CostOf(moves).hops
  {
    if moves != [] {
      CostTakesTime(t, moves[..|moves| - 1]);
    }
  }

  // Where the cheapest state still open is at the limit, the goal is out of reach of 32 bits.
  lemma LateFromHere(t: Terrain, goal: TileCoord, l: Labels, queue: seq<QueueEntry>, s: nat, expansions: nat)
    requires Invariant(t, goal, l, queue, None, {}) && s < Count(t) && l.best[s].Some? && AtLimit(l.best[s].value)
    requires Optimal(t, goal, l.best[s].value)
    requires expansions < Count(t) && l.best[s].value.elapsed <= Span(t, expansions)
    ensures TooLate(t, goal)
  {
    assert 0 < t.ctx.target.hopLatency;
    var way := LabelIsWalk(t, goal, l, queue, None, {}, s);
    hide Invariant, Terrain.FreeWalk, Walk, Terrain.CostOf, StateCount, StateOf;
    CostTakesTime(t, way);
    forall moves | t.FreeWalk(moves) && Walk(t.ctx, moves, t.start).value.tile == goal
      ensures Walk(t.ctx, moves, t.start).value.elapsed >= U32_MAX
    {
      FreeWalks(t, moves);
      t.CostIsTime(moves);
    }
    MoreSpan(t, expansions, Count(t));
  }

  lemma FreeWalks(t: Terrain, moves: seq<Move>)
    requires t.FreeWalk(moves)
    ensures Walk(t.ctx, moves, t.start).Some?
  {
  }

  lemma MoreSpan(t: Terrain, fewer: nat, more: nat)
    requires fewer < more
    ensures Span(t, fewer) + t.ctx.target.hopLatency <= Span(t, more)
    ensures Span(t, fewer + 1) == Span(t, fewer) + t.ctx.target.hopLatency
  {
    ModuloArithmetic.MultipleBounds(more - fewer, if t.ctx.target.hopLatency > 0 then t.ctx.target.hopLatency else 1);
    assert more * t.ctx.target.hopLatency == fewer * t.ctx.target.hopLatency + (more - fewer) * t.ctx.target.hopLatency;
  }

  // No label is later than this.
  predicate Within(best: seq<Option<Cost>>, latest: nat) {
    forall s :: 0 <= s < |best| && best[s].Some? ==> best[s].value.elapsed <= latest
  }

  // ----- Reading the predecessor chain -----

  datatype ChainLink = ChainLink(state: nat, from: Predecessor)

  // `reversed` lists the labels met on the way back from g to `current`.
  ghost predicate Trail(t: Terrain, l: Labels, reversed: seq<ChainLink>, g: nat, current: nat)
    requires t.Valid() && Shaped(t, l)
  {
    current < Count(t) &&
    if reversed == [] then current == g
    else
      var last := reversed[|reversed| - 1];
      && last.state < Count(t) && last.state != StartId(t) && last.from == l.predecessors[last.state]
      && last.from.Via? && last.from.previous == current
      && Trail(t, l, reversed[..|reversed| - 1], g, last.state)
  }

  lemma {:induction false} TrailCosts(t: Terrain, goal: TileCoord, l: Labels, queue: seq<QueueEntry>,
                                      reversed: seq<ChainLink>, g: nat, current: nat)
    requires Invariant(t, goal, l, queue, None, {}) && Trail(t, l, reversed, g, current)
    requires g < Count(t) && l.best[g].Some?
    ensures l.best[current].Some?
    ensures l.best[current].value.elapsed + |reversed| <= l.best[g].value.elapsed
  {
    hide AllSettled, Queued, StateId, StateCount, StateFor, Terrain.Open, Advance, Terrain.Next;
    if reversed != [] {
      var last := reversed[|reversed| - 1];
      TrailCosts(t, goal, l, queue, reversed[..|reversed| - 1], g, last.state);
      assert Grounded(t, l, last.state);
    }
  }

  // What rebuilding the plan up to state `at` has established.
  ghost predicate Rebuilt(t: Terrain, l: Labels, actions: seq<TransportAction>, at: nat)
    requires t.Valid() && Shaped(t, l)
  {
    && at < Count(t) && l.best[at].Some? && l.best[at].value.elapsed <= U32_MAX
    && Follow(t.ctx, actions, t.start) == Some(Availability(StateOf(t, at).tile, l.best[at].value.elapsed))
    && t.FreeWalk(Unroll(actions)) && t.CostOf(Unroll(actions)) == l.best[at].value
    && l.best[at].value == Cost(l.best[at].value.elapsed, HoldCycles(actions), HopCount(actions))
    && Distinct(LinksOf(t.ctx, actions))
    && (forall r :: r in LinksOf(t.ctx, actions) ==> Verifier.FreeLink(t.model, t.owners, r))
    && (forall r :: r in LinksOf(t.ctx, actions) ==> Earlier(t, l, RouteState(r.tile, r.slot), l.best[at].value.elapsed))
  }

  // The state was labelled with an earlier time.
  ghost predicate Earlier(t: Terrain, l: Labels, state: RouteState, elapsed: nat)
    requires Shaped(t, l)
  {
    var id := IdOf(t, state);
    id < Count(t) && l.best[id].Some? && l.best[id].value.elapsed < elapsed
  }

  lemma UnrollExtend(ctx: RouteContext, actions: seq<TransportAction>, start: Availability, here: Availability, move: Move)
    requires here.elapsed <= U32_MAX && (move.Wait? ==> here.elapsed < U32_MAX)
    requires Follow(ctx, actions, start) == Some(here)
    ensures var actions' := Extend(ctx, actions, here, move);
      && Unroll(actions') == Unroll(actions) + [move]
      && HoldCycles(actions') == HoldCycles(actions) + (if move.Wait? then 1 else 0)
      && HopCount(actions') == HopCount(actions) + (if move.Hop? then 1 else 0)
  {
    var actions', n := Extend(ctx, actions, here, move), |actions|;
    if |actions'| == n {
      assert actions'[..n - 1] == actions[..n - 1];
      var last := actions[n - 1];
      assert Waits(last.release - last.capture + 1) == Waits(last.release - last.capture) + [Wait];
    } else {
      assert actions'[..n] == actions;
      assert Waits(0) == [] && Waits(1) == Waits(0) + [Wait];
    }
  }

  // One more label of the chain extends the plan.
  lemma RebuildStep(t: Terrain, goal: TileCoord, l: Labels, queue: seq<QueueEntry>, actions: seq<TransportAction>,
                    at: nat, child: nat, move: Move)
    requires Invariant(t, goal, l, queue, None, {}) && Rebuilt(t, l, actions, at)
    requires child < Count(t) && child != StartId(t) && l.best[child].Some? && l.best[child].value.elapsed <= U32_MAX
    requires l.predecessors[child] == Via(at, move)
    ensures move.Wait? ==> l.best[at].value.elapsed < U32_MAX
    ensures Rebuilt(t, l, Extend(t.ctx, actions, Availability(StateOf(t, at).tile, l.best[at].value.elapsed), move), child)
  {
    hide AllSettled, Queued, AllGrounded, Grounded, StateId, StateCount, StateFor, Advance, Walk, WalkLinks, Follow,
         LinksOf, Unroll, Extend, HoldCycles, HopCount, Verifier.FreeLink, Distinct, Terrain.Open, Earlier, Terrain.FreeWalk;
    StepTaken(t, goal, l, queue, at, child, move);
    var here := Availability(StateOf(t, at).tile, l.best[at].value.elapsed);
    ExtendFollows(t.ctx, actions, t.start, here, move);
    UnrollExtend(t.ctx, actions, t.start, here, move);
    UnrollWalks(t.ctx, actions, t.start);
    t.FreeWalkSnoc(Unroll(actions), move);
    RebuildLinks(t, l, actions, at, child, move);
  }

  // The label of the child is one move after its parent's.
  lemma StepTaken(t: Terrain, goal: TileCoord, l: Labels, queue: seq<QueueEntry>, at: nat, child: nat, move: Move)
    requires Invariant(t, goal, l, queue, None, {}) && at < Count(t) && l.best[at].Some?
    requires child < Count(t) && child != StartId(t) && l.best[child].Some?
    requires l.predecessors[child] == Via(at, move)
    ensures Grounded(t, l, at) && t.Open(move, StateOf(t, at)) && l.best[child].value == t.Add(move, l.best[at].value)
    ensures l.best[at].value.elapsed < l.best[child].value.elapsed
    ensures move.Wait? ==> l.best[child].value.elapsed == l.best[at].value.elapsed + 1
    ensures var here := Availability(StateOf(t, at).tile, l.best[at].value.elapsed);
      && StateAt(t.ctx, here) == StateOf(t, at)
      && Take(t.ctx, move, here) == Some(Availability(StateOf(t, child).tile, l.best[child].value.elapsed))
  {
    hide AllSettled, Queued, StateId, StateCount, StateFor, Advance, Verifier.FreeLink;
    assert Grounded(t, l, child) && Grounded(t, l, at);
  }

  lemma RebuildLinks(t: Terrain, l: Labels, actions: seq<TransportAction>, at: nat, child: nat, move: Move)
    requires t.Valid() && Shaped(t, l) && Rebuilt(t, l, actions, at) && Grounded(t, l, at)
    requires child < Count(t) && l.best[child].Some? && t.Open(move, StateOf(t, at))
    requires l.best[at].value.elapsed < l.best[child].value.elapsed
    ensures var links := LinksOf(t.ctx, actions) +
                         LinksOfMove(t.ctx, move, Availability(StateOf(t, at).tile, l.best[at].value.elapsed));
      && Distinct(links)
      && (forall r :: r in links ==> Verifier.FreeLink(t.model, t.owners, r))
      && (forall r :: r in links ==> Earlier(t, l, RouteState(r.tile, r.slot), l.best[child].value.elapsed))
  {
    hide StateId, StateCount, StateFor, Advance, Walk, WalkLinks, Follow, LinksOf, Unroll, Verifier.FreeLink;
    var here := Availability(StateOf(t, at).tile, l.best[at].value.elapsed);
    var old', more := LinksOf(t.ctx, actions), LinksOfMove(t.ctx, move, here);
    if move.Hop? {
      var r := t.ctx.LinkAt(here.tile, move.direction, here.elapsed);
      assert more == [r];
      IdRoundTrip(t.ctx.target, t.ctx.ii, at);
      assert RouteState(r.tile, r.slot) == StateOf(t, at);
      DistinctConcat(old', more);
    } else {
      assert old' + more == old';
    }
  }

  lemma StartRebuilt(t: Terrain, goal: TileCoord, l: Labels, queue: seq<QueueEntry>)
    requires Invariant(t, goal, l, queue, None, {}) && t.start.elapsed <= U32_MAX
    ensures Rebuilt(t, l, [], StartId(t))
  {
    hide AllSettled, Queued, AllGrounded, StateId, StateCount, StateFor, Advance;
    StartIsItsState(t);
  }

  // A rebuilt plan that has come as far as the goal tile is the plan of its label.
  lemma RebuiltCarries(t: Terrain, l: Labels, actions: seq<TransportAction>, g: nat, goal: TileCoord, plan: TransportPlan)
    requires t.Valid() && Shaped(t, l) && Rebuilt(t, l, actions, g) && StateOf(t, g).tile == goal && goal != t.start.tile
    requires plan.actions == actions && plan.requiredSeparation == l.best[g].value.elapsed
    requires plan.domain == t.ctx.domain
    ensures Carries(t, goal, plan) && t.CostOf(Unroll(plan.actions)) == PlanCost(plan) == l.best[g].value
  {
    hide StateId, StateCount, StateFor, Advance, Walk, WalkLinks, LinksOf, Unroll, Verifier.FreeLink;
  }

  lemma NextLink(ctx: RouteContext, actions: seq<TransportAction>, start: Availability, i: nat)
    requires 0 < ctx.ii && i < |actions| && Follow(ctx, actions, start).Some? && Distinct(LinksOf(ctx, actions))
    ensures !actions[i].LinkStep? ==> LinksOf(ctx, actions[..i + 1]) == LinksOf(ctx, actions[..i])
    ensures actions[i].LinkStep? ==>
      var r := ctx.LinkAt(actions[i].source, actions[i].direction, actions[i].elapsed);
      && LinksOf(ctx, actions[..i + 1]) == LinksOf(ctx, actions[..i]) + [r]
      && r !in LinksOf(ctx, actions[..i])
      && ctx.Onward(actions[i].source, actions[i].direction).Some?
  {
    hide Advance;
    var before, upTo := actions[..i], actions[..i + 1];
    assert upTo[..i] == before && upTo[i] == actions[i];
    if Follow(ctx, upTo, start).None? {
      FollowPrefix(ctx, actions, start, i + 1);
    }
    LinksPrefix(ctx, actions, i + 1);
    if actions[i].LinkStep? {
      LastIsFresh(LinksOf(ctx, before), ctx.LinkAt(actions[i].source, actions[i].direction, actions[i].elapsed),
                  LinksOf(ctx, actions));
    }
  }

  lemma LastIsFresh<T>(s: seq<T>, x: T, longer: seq<T>)
    requires s + [x] <= longer && Distinct(longer)
    ensures x !in s
  {
    assert longer[|s|] == (s + [x])[|s|];
    forall k | 0 <= k < |s|
      ensures s[k] != x
    {
      assert longer[k] == (s + [x])[k];
    }
  }

  ghost predicate LinksSeen(ctx: RouteContext, model: ResourceModel, actions: seq<TransportAction>, seen: seq<nat>, i: nat)
    requires 0 < ctx.ii && i <= |actions|
  {
    model.Knows(LinksOf(ctx, actions[..i])) && seen == model.IdsOf(LinksOf(ctx, actions[..i]))
  }

  lemma LinkNotSeen(ctx: RouteContext, model: ResourceModel, actions: seq<TransportAction>, start: Availability,
                    seen: seq<nat>, i: nat)
    requires model.Valid() && ctx.target == model.target && ctx.ii == model.ii
    requires i < |actions| && LinksSeen(ctx, model, actions, seen, i)
    requires Follow(ctx, actions, start).Some? && Distinct(LinksOf(ctx, actions))
    ensures !actions[i].LinkStep? ==> LinksSeen(ctx, model, actions, seen, i + 1)
    ensures actions[i].LinkStep? ==>
      var slot := Advance(ctx.issueSlot, actions[i].elapsed, ctx.ii);
      var resource := model.LinkResource(ctx.domain, actions[i].source, actions[i].direction, slot);
      resource.Some? && resource.value !in seen && LinksSeen(ctx, model, actions, seen + [resource.value], i + 1)
  {
    hide Advance, Exists, ResourceModel.LinkResource, LinksOf, Follow;
    NextLink(ctx, actions, start, i);
    if actions[i].LinkStep? {
      Verifier.LinkLookup(ctx, model, actions[i].source, actions[i].direction, actions[i].elapsed);
      model.IdsAreFaithful(LinksOf(ctx, actions[..i]));
    }
  }

  // Looks every link of a plan up, refusing missing and repeated ones: a legal plan has neither.
  method LinkIds(ctx: RouteContext, model: ResourceModel, actions: seq<TransportAction>, ghost start: Availability)
    returns (links: Option<seq<nat>>)
    requires model.Valid() && ctx.target == model.target && ctx.ii == model.ii
    requires Follow(ctx, actions, start).Some? && Distinct(LinksOf(ctx, actions))
    ensures model.Knows(LinksOf(ctx, actions)) && links == Some(model.IdsOf(LinksOf(ctx, actions)))
  {
    hide Advance, Exists, ResourceModel.LinkResource, LinksOf, Follow, ResourceModel.Valid;
    var seen: seq<nat> := [];
    NoLinksSeen(ctx, model, actions);
    for i := 0 to |actions|
      invariant LinksSeen(ctx, model, actions, seen, i)
    {
      LinkNotSeen(ctx, model, actions, start, seen, i);
      if actions[i].LinkStep? {
        var slot := Advance(ctx.issueSlot, actions[i].elapsed, ctx.ii);
        var resource := model.LinkResource(ctx.domain, actions[i].source, actions[i].direction, slot);
        if resource.None? || resource.value in seen {
          return None;
        }
        seen := seen + [resource.value];
      }
    }
    assert actions[..|actions|] == actions;
    return Some(seen);
  }

  lemma NoLinksSeen(ctx: RouteContext, model: ResourceModel, actions: seq<TransportAction>)
    requires model.Valid() && ctx.ii == model.ii
    ensures 0 < model.ii && LinksSeen(ctx, model, actions, [], 0)
  {
    assert actions[..0] == [];
  }

  /** One search: labels, predecessor chain and priority queue over all routing states. */
  class RouteSearchImpl {
    const t: Terrain
    const edge: nat
    const goal: TileCoord
    const maxStateExpansions: nat
    const maxQueuePushes: nat
    var best: seq<Option<Cost>>
    var predecessors: seq<Predecessor>
    var finalized: seq<bool>
    var queue: seq<QueueEntry>
    var sequence: nat
    var stateExpansions: nat
    var queuePushes: nat

    constructor (t: Terrain, edge: nat, goal: TileCoord, maxStateExpansions: nat, maxQueuePushes: nat)
      ensures this.t == t && this.edge == edge && this.goal == goal
      ensures this.maxStateExpansions == maxStateExpansions && this.maxQueuePushes == maxQueuePushes
      ensures queue == [] && stateExpansions == 0 && queuePushes == 0
    {
      this.t, this.edge, this.goal := t, edge, goal;
      this.maxStateExpansions, this.maxQueuePushes := maxStateExpansions, maxQueuePushes;
      best, predecessors, finalized, queue := [], [], [], [];
      sequence, stateExpansions, queuePushes := 0, 0, 0;
    }

    method Push(entry: QueueEntry) returns (ok: bool)
      requires queuePushes <= maxQueuePushes
      modifies this`queue, this`queuePushes
      ensures ok <==> old(queuePushes) < maxQueuePushes
      ensures queue == if ok then old(queue) + [entry] else old(queue)
      ensures queuePushes == if ok then old(queuePushes) + 1 else old(queuePushes)
    {
      if queuePushes >= maxQueuePushes {
        return false;
      }
      queue := queue + [entry];
      queuePushes := queuePushes + 1;
      return true;
    }

    // Takes a cheapest entry off the queue (ties: smaller state, then older entry).
    method PopTop() returns (top: QueueEntry, ghost at: nat)
      requires queue != []
      modifies this`queue
      ensures at < |old(queue)| && top == old(queue)[at] && Least(old(queue), at)
      ensures queue == old(queue)[..at] + old(queue)[at + 1..]
    {
      var i := 0;
      for j := 1 to |queue|
        invariant 0 <= i < j
        invariant forall m :: 0 <= m < j ==> !Earlier(queue[m], queue[i])
      {
        if Earlier(queue[j], queue[i]) {
          i := j;
        }
      }
      at := i;
      top := queue[i];
      queue := queue[..i] + queue[i + 1..];
    }

    static predicate Earlier(a: QueueEntry, b: QueueEntry) {
      if a.cost != b.cost then Before(a.cost, b.cost)
      else if a.state != b.state then a.state < b.state
      else a.sequence < b.sequence
    }

    // Offers a label; on success the move counts as expanded.
    method RelaxTo(previous: nat, destination: nat, cost: Cost, move: Move, ghost done: set<Move>, ghost latest: nat)
      returns (ok: bool)
      requires Within(best, latest) && cost.elapsed <= latest
      requires Relaxable(t, goal, Labels(best, predecessors, finalized), queue, previous, done, move, destination)
      requires best[previous].Some? && cost == t.Add(move, best[previous].value) && queuePushes <= maxQueuePushes
      modifies this`best, this`predecessors, this`queue, this`sequence, this`queuePushes
      ensures ok ==> Invariant(t, goal, Labels(best, predecessors, finalized), queue, Some(previous), done + {move})
      ensures ok ==> previous < |best| && best[previous] == old(best[previous])
      ensures Within(best, latest)
      ensures queuePushes <= maxQueuePushes && queuePushes <= old(queuePushes) + 1
      ensures !ok ==> old(queuePushes) == maxQueuePushes
    {
      ghost var l, q := Labels(best, predecessors, finalized), queue;
      RelaxableParts(l, queue, previous, done, move, destination);
      hide *;
      if finalized[destination] || (best[destination].Some? && !Before(cost, best[destination].value)) {
        NoBetter(t, goal, l, queue, previous, done, move, destination);
        return true;
      }
      var entry := QueueEntry(cost, destination, sequence);
      WithinMore(best, destination, cost, latest);
      RelaxStep(t, goal, l, queue, previous, done, move, destination, entry);
      best := best[destination := Some(cost)];
      predecessors := predecessors[destination := Via(previous, move)];
      sequence := sequence + 1;
      ok := Push(entry);
    }

    static lemma WithinMore(best: seq<Option<Cost>>, destination: nat, cost: Cost, latest: nat)
      requires Within(best, latest) && destination < |best| && cost.elapsed <= latest
      ensures Within(best[destination := Some(cost)], latest)
    {
    }

    lemma RelaxableParts(l: Labels, queue: seq<QueueEntry>, previous: nat, done: set<Move>, move: Move, destination: nat)
      requires Relaxable(t, goal, l, queue, previous, done, move, destination)
      ensures |l.best| == |l.predecessors| == |l.finalized| && destination < |l.best| && previous < |l.best|
      ensures l.finalized[previous]
    {
    }

    // The state being expanded and what its moves lead to.
    lemma ExpandingParts(l: Labels, queue: seq<QueueEntry>, c: nat, done: set<Move>)
      requires Invariant(t, goal, l, queue, Some(c), done)
      ensures t.Valid() && |l.best| == |l.predecessors| == |l.finalized| == Count(t) && c < Count(t)
      ensures 0 < t.ctx.target.rows && 0 < t.ctx.target.cols && 0 < t.ctx.ii
      ensures l.best[c].Some? && StateOf(t, c).slot == t.ctx.SlotAt(l.best[c].value.elapsed)
      ensures InRange(t.ctx.target, t.ctx.ii, StateOf(t, c))
    {
      hide Queued, StateId, StateCount, StateFor, Relaxed, Advance;
      assert Settled(t, goal, l, c, Some(c), done) && Grounded(t, l, c);
      IdRoundTrip(t.ctx.target, t.ctx.ii, c);
    }

    lemma MoveRelaxable(l: Labels, queue: seq<QueueEntry>, c: nat, done: set<Move>, move: Move)
      requires Invariant(t, goal, l, queue, Some(c), done) && t.Open(move, StateOf(t, c))
      ensures Relaxable(t, goal, l, queue, c, done, move, IdOf(t, t.Next(move, StateOf(t, c))))
    {
      hide Queued, StateId, StateCount, StateFor, Relaxed, Advance, AllGrounded, AllSettled;
      ExpandingParts(l, queue, c, done);
      var state := StateOf(t, c);
      if move.Hop? {
        NeighborIsSymmetric(state.tile, move.direction, t.ctx.target.rows, t.ctx.target.cols);
      }
      StateRoundTrip(t.ctx.target, t.ctx.ii, t.Next(move, state));
    }

    method ExpandLink(currentId: nat, current: Cost, direction: Direction, ghost done: set<Move>, ghost latest: nat)
      returns (outcome: Expansion)
      requires Within(best, latest) && current.elapsed + t.ctx.target.hopLatency <= latest
      requires Invariant(t, goal, Labels(best, predecessors, finalized), queue, Some(currentId), done)
      requires currentId < |best| && best[currentId] == Some(current) && queuePushes <= maxQueuePushes
      modifies this`best, this`predecessors, this`queue, this`sequence, this`queuePushes
      ensures outcome == Continue ==>
        && Invariant(t, goal, Labels(best, predecessors, finalized), queue, Some(currentId), done + {Hop(direction)})
        && currentId < |best| && best[currentId] == Some(current)
      ensures outcome == CostOverflow ==> AtLimit(current)
      ensures Within(best, latest)
      ensures queuePushes <= maxQueuePushes && queuePushes <= old(queuePushes) + 1
      ensures outcome == OutOfBudget ==> old(queuePushes) == maxQueuePushes
    {
      ghost var l, q := Labels(best, predecessors, finalized), queue;
      hide *;
      ExpandingParts(l, queue, currentId, done);
      HopDecided(l, queue, currentId, done, direction);
      var state := StateOf(t, currentId);
      var nextTile := Neighbor(state.tile, direction, t.ctx.target.rows, t.ctx.target.cols);
      if nextTile.None? {
        return Continue;
      }
      var launchSlot := Advance(t.ctx.issueSlot, current.elapsed, t.ctx.ii);
      var resource := t.model.LinkResource(t.ctx.domain, state.tile, direction, launchSlot);
      if resource.None? || t.owners[resource.value].Some? {
        return Continue;
      }
      if current.elapsed > U64_MAX - t.ctx.target.hopLatency || current.hops == U32_MAX {
        LimitReached(current);
        return CostOverflow;
      }
      var nextSlot := Advance(state.slot, t.ctx.target.hopLatency, t.ctx.ii);
      var nextId := IdOf(t, RouteState(nextTile.value, nextSlot));
      var nextCost := Cost(current.elapsed + t.ctx.target.hopLatency, current.holds, current.hops + 1);
      MoveRelaxable(l, queue, currentId, done, Hop(direction));
      var ok := RelaxTo(currentId, nextId, nextCost, Hop(direction), done, latest);
      outcome := if ok then Continue else OutOfBudget;
    }

    // What the lookups of a hop decide, and what an open hop leads to.
    lemma HopDecided(l: Labels, queue: seq<QueueEntry>, c: nat, done: set<Move>, direction: Direction)
      requires Invariant(t, goal, l, queue, Some(c), done) && c < |l.best| && l.best[c].Some?
      ensures t.Valid() && 0 < t.ctx.ii
      ensures var state, cost := StateOf(t, c), l.best[c].value;
        var nextTile := Neighbor(state.tile, direction, t.ctx.target.rows, t.ctx.target.cols);
        var resource := t.model.LinkResource(t.ctx.domain, state.tile, direction,
                                             Advance(t.ctx.issueSlot, cost.elapsed, t.ctx.ii));
        && (resource.Some? ==> resource.value < |t.owners|)
        && (nextTile.None? || resource.None? || t.owners[resource.value].Some? ==>
              Invariant(t, goal, l, queue, Some(c), done + {Hop(direction)}))
        && (nextTile.Some? && resource.Some? && t.owners[resource.value].None? ==>
              && t.Open(Hop(direction), state)
              && t.Next(Hop(direction), state) ==
                 RouteState(nextTile.value, Advance(state.slot, t.ctx.target.hopLatency, t.ctx.ii))
              && t.Add(Hop(direction), cost) == Cost(cost.elapsed + t.ctx.target.hopLatency, cost.holds, cost.hops + 1))
    {
      hide Queued, StateId, StateCount, StateFor, Relaxed, Advance, AllGrounded, AllSettled, Neighbor, Exists, Dearest;
      ExpandingParts(l, queue, c, done);
      Verifier.LinkLookup(t.ctx, t.model, StateOf(t, c).tile, direction, l.best[c].value.elapsed);
      if !t.Open(Hop(direction), StateOf(t, c)) {
        ClosedMove(t, goal, l, queue, c, done, Hop(direction));
      }
    }

    lemma LimitReached(cost: Cost)
      requires
        || cost.elapsed > U64_MAX - t.ctx.target.hopLatency || cost.elapsed >= U64_MAX
        || cost.hops == U32_MAX || cost.holds == U32_MAX
      ensures AtLimit(cost)
    {
    }

    method ExpandHold(currentId: nat, current: Cost, ghost done: set<Move>, ghost latest: nat)
      returns (outcome: Expansion)
      requires Within(best, latest) && current.elapsed + t.ctx.target.hopLatency <= latest
      requires Invariant(t, goal, Labels(best, predecessors, finalized), queue, Some(currentId), done)
      requires currentId < |best| && best[currentId] == Some(current) && queuePushes <= maxQueuePushes && t.allowHold
      modifies this`best, this`predecessors, this`queue, this`sequence, this`queuePushes
      ensures outcome == Continue ==>
        Invariant(t, goal, Labels(best, predecessors, finalized), queue, Some(currentId), done + {Wait})
      ensures outcome == CostOverflow ==> AtLimit(current)
      ensures Within(best, latest)
      ensures queuePushes <= maxQueuePushes && queuePushes <= old(queuePushes) + 1
      ensures outcome == OutOfBudget ==> old(queuePushes) == maxQueuePushes
    {
      ghost var l, q := Labels(best, predecessors, finalized), queue;
      hide *;
      ExpandingParts(l, queue, currentId, done);
      if current.elapsed >= U64_MAX || current.holds == U32_MAX {
        LimitReached(current);
        return CostOverflow;
      }
      WaitOpen(l, queue, currentId, done);
      var state := StateOf(t, currentId);
      var nextSlot := Advance(state.slot, 1, t.ctx.ii);
      var nextId := IdOf(t, RouteState(state.tile, nextSlot));
      MoveRelaxable(l, queue, currentId, done, Wait);
      var ok := RelaxTo(currentId, nextId, Cost(current.elapsed + 1, current.holds + 1, current.hops), Wait, done, latest);
      outcome := if ok then Continue else OutOfBudget;
    }

    lemma WaitOpen(l: Labels, queue: seq<QueueEntry>, c: nat, done: set<Move>)
      requires Invariant(t, goal, l, queue, Some(c), done) && c < |l.best| && l.best[c].Some? && t.allowHold
      ensures t.Valid() && 0 < t.ctx.ii && 0 < t.ctx.target.hopLatency
      ensures var state, cost := StateOf(t, c), l.best[c].value;
        && t.Open(Wait, state)
        && t.Next(Wait, state) == RouteState(state.tile, Advance(state.slot, 1, t.ctx.ii))
        && t.Add(Wait, cost) == Cost(cost.elapsed + 1, cost.holds + 1, cost.hops)
    {
      hide Queued, StateId, StateCount, StateFor, Relaxed, Advance, AllGrounded, AllSettled, Dearest;
    }

    // Expands one state in all directions and, where allowed, in time.
    method Expand(currentId: nat, current: Cost, ghost latest: nat) returns (outcome: Expansion)
      requires Within(best, latest) && current.elapsed + t.ctx.target.hopLatency <= latest
      requires Invariant(t, goal, Labels(best, predecessors, finalized), queue, Some(currentId), {})
      requires currentId < |best| && best[currentId] == Some(current) && queuePushes <= maxQueuePushes
      modifies this`best, this`predecessors, this`queue, this`sequence, this`queuePushes
      ensures outcome == Continue ==>
        Invariant(t, goal, Labels(best, predecessors, finalized), queue, None, {})
      ensures outcome == CostOverflow ==> AtLimit(current)
      ensures Within(best, latest)
      ensures queuePushes <= maxQueuePushes && queuePushes <= old(queuePushes) + 5
      ensures outcome == OutOfBudget ==> maxQueuePushes <= old(queuePushes) + 4
    {
      hide *;
      outcome := Continue;
      var directions := [North, East, South, West];
      ghost var done: set<Move> := {};
      for i := 0 to |directions|
        invariant outcome == Continue && Within(best, latest)
        invariant Invariant(t, goal, Labels(best, predecessors, finalized), queue, Some(currentId), done)
        invariant currentId < |best| && best[currentId] == Some(current)
        invariant queuePushes <= maxQueuePushes && queuePushes <= old(queuePushes) + i
        invariant forall j :: 0 <= j < i ==> Hop(directions[j]) in done
      {
        outcome := ExpandLink(currentId, current, directions[i], done, latest);
        if outcome != Continue {
          return;
        }
        done := done + {Hop(directions[i])};
      }
      if t.allowHold {
        outcome := ExpandHold(currentId, current, done, latest);
        if outcome != Continue {
          return;
        }
      } else {
        WaitClosed(Labels(best, predecessors, finalized), queue, currentId, done);
      }
      AllMoves(done);
      FullyExpanded(t, goal, Labels(best, predecessors, finalized), queue, currentId, done + {Wait});
    }

    lemma WaitClosed(l: Labels, queue: seq<QueueEntry>, c: nat, done: set<Move>)
      requires Invariant(t, goal, l, queue, Some(c), done) && !t.allowHold
      ensures Invariant(t, goal, l, queue, Some(c), done + {Wait})
    {
      hide Queued, StateId, StateCount, StateFor, Relaxed, Advance, AllGrounded, AllSettled, Dearest;
      ClosedMove(t, goal, l, queue, c, done, Wait);
    }

    lemma AllMoves(done: set<Move>)
      requires var directions := [North, East, South, West]; forall j :: 0 <= j < 4 ==> Hop(directions[j]) in done
      ensures forall move :: move in done + {Wait}
    {
      var directions := [North, East, South, West];
      forall move: Move
        ensures move in done + {Wait}
      {
        match move
        case Wait =>
        case Hop(direction) =>
          match direction
          case North => assert Hop(directions[0]) in done;
          case East => assert Hop(directions[1]) in done;
          case South => assert Hop(directions[2]) in done;
          case West => assert Hop(directions[3]) in done;
      }
    }

    // ----- The search loop -----

    static function Unfinished(finalized: seq<bool>): nat {
      if finalized == [] then 0
      else Unfinished(finalized[..|finalized| - 1]) + (if finalized[|finalized| - 1] then 0 else 1)
    }

    static lemma OneMoreFinished(finalized: seq<bool>, c: nat)
      requires c < |finalized| && !finalized[c]
      ensures Unfinished(finalized[c := true]) == Unfinished(finalized) - 1
    {
      var n := |finalized|;
      if c < n - 1 {
        OneMoreFinished(finalized[..n - 1], c);
        assert finalized[c := true][..n - 1] == finalized[..n - 1][c := true];
      } else {
        assert finalized[c := true][..n - 1] == finalized[..n - 1];
      }
    }

    // The budget is too small for expanding every state once.
    ghost predicate Scarce() {
      maxStateExpansions < Count(t) || maxQueuePushes <= 5 * Count(t)
    }

    // What the result of a search between different tiles promises.
    ghost predicate Answered(result: RouteResult)
      requires t.Valid()
      reads this
    {
      && (result.status == Success ==>
            && result.plan.Some? && result.plan.value.edge == edge
            && Carries(t, goal, result.plan.value)
            && t.CostOf(Unroll(result.plan.value.actions)) == PlanCost(result.plan.value)
            && Optimal(t, goal, PlanCost(result.plan.value)))
      && (result.status == NoPath ==> Unreachable(t, goal))
      && (result.status == InternalError ==> TooLate(t, goal))
      && (result.status == BudgetExceeded ==> Scarce())
      && result.status in {Success, NoPath, InternalError, BudgetExceeded}
      && stateExpansions <= maxStateExpansions && queuePushes <= maxQueuePushes
    }

    method Explore() returns (result: RouteResult)
      requires Invariant(t, goal, Labels(best, predecessors, finalized), queue, None, {})
      requires t.Valid() && t.start.tile != goal && t.start.elapsed <= U32_MAX
      requires stateExpansions <= maxStateExpansions && queuePushes <= maxQueuePushes
      requires stateExpansions + Unfinished(finalized) <= Count(t) && queuePushes <= 1 + 5 * stateExpansions
      requires Within(best, Span(t, stateExpansions))
      modifies this`best, this`predecessors, this`finalized, this`queue, this`sequence, this`stateExpansions,
               this`queuePushes
      ensures Answered(result)
    {
      hide *;
      while queue != []
        invariant Invariant(t, goal, Labels(best, predecessors, finalized), queue, None, {})
        invariant stateExpansions <= maxStateExpansions && queuePushes <= maxQueuePushes
        invariant stateExpansions + Unfinished(finalized) <= Count(t) && queuePushes <= 1 + 5 * stateExpansions
        invariant Within(best, Span(t, stateExpansions))
        decreases Unfinished(finalized), |queue|
      {
        ghost var l, q := Labels(best, predecessors, finalized), queue;
        var current, at := PopTop();
        PoppedParts(l, q, at);
        if finalized[current.state] || best[current.state] != Some(current.cost) {
          StaleEntry(t, goal, l, q, at);
          continue;
        }
        OneMoreFinished(finalized, current.state);
        GoalIsOptimal(current.state, l, q, at);
        MoreSpan(t, stateExpansions, stateExpansions + 1);
        EarlyEnough(best, current.state, stateExpansions, finalized);
        if StateOf(t, current.state).tile == goal {
          finalized := finalized[current.state := true];
          result := Succeed(current.state, l, q, at);
          return;
        }
        FinalizeStep(t, goal, l, q, at, current.state);
        finalized := finalized[current.state := true];
        if stateExpansions >= maxStateExpansions {
          TooScarce();
          result := RouteResult(BudgetExceeded, None);
          Gives(result);
          return;
        }
        stateExpansions := stateExpansions + 1;
        var outcome := Expand(current.state, current.cost, Span(t, stateExpansions));
        if outcome != Continue {
          if outcome == OutOfBudget {
            TooScarce();
          } else {
            LateFromHere(t, goal, l, q, current.state, stateExpansions - 1);
          }
          result := RouteResult(if outcome == OutOfBudget then BudgetExceeded else InternalError, None);
          Gives(result);
          return;
        }
      }
      QueueEmpty(Labels(best, predecessors, finalized), queue);
      result := RouteResult(NoPath, None);
      Gives(result);
    }

    // What is still to be finished bounds the expansions, and the expansions bound the label.
    lemma EarlyEnough(labels: seq<Option<Cost>>, c: nat, expansions: nat, finished: seq<bool>)
      requires Within(labels, Span(t, expansions)) && c < |labels| == |finished| && labels[c].Some? && !finished[c]
      requires expansions + Unfinished(finished) <= Count(t)
      ensures expansions < Count(t) && labels[c].value.elapsed <= Span(t, expansions)
      ensures Within(labels, Span(t, expansions + 1))
      ensures labels[c].value.elapsed + t.ctx.target.hopLatency <= Span(t, expansions + 1)
    {
      OneMoreFinished(finished, c);
      MoreSpan(t, expansions, expansions + 1);
    }

    lemma WhatIsPromised(result: RouteResult)
      requires t.Valid()
      ensures Answered(result) ==>
        && result.status in {Success, NoPath, InternalError, BudgetExceeded}
        && (result.status == Success ==>
              result.plan.Some? && result.plan.value.edge == edge && Carries(t, goal, result.plan.value) &&
              Optimal(t, goal, PlanCost(result.plan.value)))
        && (result.status == NoPath ==> Unreachable(t, goal))
        && (result.status == InternalError ==> TooLate(t, goal))
        && (result.status == BudgetExceeded ==> maxStateExpansions < Count(t) || maxQueuePushes <= 5 * Count(t))
      ensures result.plan.Some? && HoldsOnce(result.plan.value) ==>
        && result.plan.value.edge == edge && Carries(t, goal, result.plan.value)
        && result.plan.value.requiredSeparation == t.start.elapsed + 1 && |result.plan.value.actions| == 1
    {
      hide Carries, Optimal, Unreachable, TooLate, Terrain.Valid;
    }

    lemma TooScarce()
      ensures maxStateExpansions < Count(t) || maxQueuePushes <= 5 * Count(t) ==> Scarce()
    {
    }

    // A result without a plan keeps its promise for one of these reasons.
    lemma Gives(result: RouteResult)
      requires t.Valid() && stateExpansions <= maxStateExpansions && queuePushes <= maxQueuePushes
      requires
        || (result.status == BudgetExceeded && Scarce())
        || (result.status == InternalError && TooLate(t, goal))
        || (result.status == NoPath && Unreachable(t, goal))
      ensures Answered(result)
    {
    }

    lemma PoppedParts(l: Labels, q: seq<QueueEntry>, at: nat)
      requires Invariant(t, goal, l, q, None, {}) && at < |q|
      ensures q[at].state < |l.best| == |l.predecessors| == |l.finalized| == Count(t)
      ensures Finalized(l, q[at].state) == Labels(l.best, l.predecessors, l.finalized[q[at].state := true])
      ensures 0 < t.ctx.target.rows && 0 < t.ctx.target.cols
    {
    }

    lemma QueueEmpty(l: Labels, q: seq<QueueEntry>)
      requires Invariant(t, goal, l, q, None, {}) && q == []
      ensures Unreachable(t, goal)
    {
      hide Invariant;
      forall moves | t.FreeWalk(moves)
        ensures Walk(t.ctx, moves, t.start).value.tile != goal
      {
        ExhaustedMeansNoPath(t, goal, l, moves);
      }
    }

    // The first goal state popped gives an optimal plan.
    method Succeed(g: nat, ghost l: Labels, ghost q: seq<QueueEntry>, ghost at: nat) returns (result: RouteResult)
      requires t.Valid() && t.start.tile != goal && t.start.elapsed <= U32_MAX
      requires Invariant(t, goal, l, q, None, {}) && at < |q| && Least(q, at) && g == q[at].state
      requires g < |best| && l.best == best && l.predecessors == predecessors && best[g] == Some(q[at].cost)
      requires 0 < t.ctx.target.rows && 0 < t.ctx.target.cols && StateOf(t, g).tile == goal
      requires stateExpansions <= maxStateExpansions && queuePushes <= maxQueuePushes
      requires stateExpansions < Count(t) && q[at].cost.elapsed <= Span(t, stateExpansions)
      ensures Answered(result)
    {
      var plan := Reconstruct(g, l, q);
      GoalIsOptimal(g, l, q, at);
      hide Invariant, Optimal, Carries, TooLate, Span;
      if plan.None? {
        LateFromHere(t, goal, l, q, g, stateExpansions);
        result := RouteResult(InternalError, None);
      } else {
        result := RouteResult(Success, plan);
      }
    }

    lemma GoalIsOptimal(g: nat, l: Labels, q: seq<QueueEntry>, at: nat)
      requires Invariant(t, goal, l, q, None, {}) && at < |q| && Least(q, at) && g == q[at].state
      requires g < |l.best| && l.best[g] == Some(q[at].cost)
      ensures Optimal(t, goal, q[at].cost)
    {
      LeastIsCheapest(t, goal, l, q, at);
      hide AllGrounded, AllSettled, Queued, StateId, StateCount, StateFor, Cheapest;
      forall moves | t.FreeWalk(moves) && Walk(t.ctx, moves, t.start).value.tile == goal
        ensures !Before(t.CostOf(moves), q[at].cost)
      {
        FirstGoalIsCheapest(t, goal, l, q, g, moves);
      }
    }

    // Reads the plan off the predecessor chain; only an elapsed time beyond 32 bits can prevent it.
    method Reconstruct(g: nat, ghost l: Labels, ghost q: seq<QueueEntry>) returns (plan: Option<TransportPlan>)
      requires t.Valid() && t.start.tile != goal && t.start.elapsed <= U32_MAX
      requires Invariant(t, goal, l, q, None, {})
      requires g < |best| && l.best == best && l.predecessors == predecessors && best[g].Some?
      requires 0 < t.ctx.target.rows && 0 < t.ctx.target.cols && StateOf(t, g).tile == goal
      ensures plan.Some? <==> best[g].value.elapsed <= U32_MAX
      ensures plan.Some? ==>
        && plan.value.edge == edge && Carries(t, goal, plan.value)
        && t.CostOf(Unroll(plan.value.actions)) == PlanCost(plan.value) == best[g].value
    {
      hide *;
      ReconstructParts(l, q, g);
      var reversed: seq<ChainLink> := [];
      var current: nat := g;
      var start := StartId(t);
      while current != start
        invariant Trail(t, l, reversed, g, current)
        decreases CostLeft(l, current)
      {
        ChainStep(l, q, reversed, g, current);
        if current >= |predecessors| || predecessors[current].NoPredecessor? || |reversed| > |predecessors| {
          return None;
        }
        reversed := reversed + [ChainLink(current, predecessors[current])];
        current := predecessors[current].previous;
      }
      plan := Rebuild(g, l, q, reversed);
    }

    ghost function CostLeft(l: Labels, current: nat): nat {
      if current < |l.best| && l.best[current].Some? then l.best[current].value.elapsed else 0
    }

    lemma ReconstructParts(l: Labels, q: seq<QueueEntry>, g: nat)
      requires Invariant(t, goal, l, q, None, {}) && g < |l.best|
      ensures t.Valid() && 0 < t.ctx.ii && Shaped(t, l) && Trail(t, l, [], g, g)
      ensures |l.best| == |l.predecessors|
    {
    }

    // Every label but the start's has a predecessor, and the way back never outgrows the state count.
    lemma ChainStep(l: Labels, q: seq<QueueEntry>, reversed: seq<ChainLink>, g: nat, current: nat)
      requires Invariant(t, goal, l, q, None, {}) && g < |l.best| && l.best[g].Some?
      requires Trail(t, l, reversed, g, current) && current != StartId(t)
      ensures current < |l.predecessors| && l.predecessors[current].Via? && |reversed| <= |l.predecessors|
      ensures Trail(t, l, reversed + [ChainLink(current, l.predecessors[current])], g, l.predecessors[current].previous)
      ensures CostLeft(l, l.predecessors[current].previous) < CostLeft(l, current)
    {
      hide AllSettled, Queued, StateId, StateCount, StateFor, Terrain.Open, Advance, Terrain.Next;
      TrailCosts(t, goal, l, q, reversed, g, current);
      assert Grounded(t, l, current);
      assert (reversed + [ChainLink(current, l.predecessors[current])])[..|reversed|] == reversed;
      ghost var seen := TrailStates(l, q, reversed, g, current);
      IdSetBound(seen, Count(t));
    }

    // The labels on the way back are all different states.
    lemma {:induction false} TrailStates(l: Labels, q: seq<QueueEntry>, reversed: seq<ChainLink>, g: nat, current: nat)
      returns (seen: set<nat>)
      requires Invariant(t, goal, l, q, None, {}) && g < |l.best| && l.best[g].Some?
      requires Trail(t, l, reversed, g, current)
      ensures |seen| == |reversed| && l.best[current].Some?
      ensures forall id :: id in seen ==>
        id < Count(t) && l.best[id].Some? && l.best[current].value.elapsed < l.best[id].value.elapsed
    {
      hide AllSettled, Queued, StateId, StateCount, StateFor, Terrain.Open, Advance, Terrain.Next;
      seen := {};
      if reversed != [] {
        var last := reversed[|reversed| - 1];
        var before := TrailStates(l, q, reversed[..|reversed| - 1], g, last.state);
        assert Grounded(t, l, last.state);
        seen := before + {last.state};
      }
    }

    // Walks the chain forwards again, merging consecutive holds.
    method Rebuild(g: nat, ghost l: Labels, ghost q: seq<QueueEntry>, reversed: seq<ChainLink>)
      returns (plan: Option<TransportPlan>)
      requires t.Valid() && t.start.tile != goal && t.start.elapsed <= U32_MAX
      requires Invariant(t, goal, l, q, None, {}) && Shaped(t, l)
      requires g < |best| && l.best == best && l.predecessors == predecessors && best[g].Some?
      requires 0 < t.ctx.target.rows && 0 < t.ctx.target.cols && StateOf(t, g).tile == goal
      requires 0 < t.ctx.ii && Trail(t, l, reversed, g, StartId(t))
      ensures plan.Some? <==> best[g].value.elapsed <= U32_MAX
      ensures plan.Some? ==>
        && plan.value.edge == edge && Carries(t, goal, plan.value)
        && t.CostOf(Unroll(plan.value.actions)) == PlanCost(plan.value) == best[g].value
    {
      hide *;
      StartRebuilt(t, goal, l, q);
      assert reversed[..|reversed|] == reversed;
      var actions: seq<TransportAction> := [];
      ghost var at := StartId(t);
      for i := |reversed| downto 0
        invariant Trail(t, l, reversed[..i], g, at) && Rebuilt(t, l, actions, at)
      {
        var child, predecessor := reversed[i].state, reversed[i].from;
        NextOfTrail(l, q, reversed, i, g, at);
        var parent := best[predecessor.previous].value;
        if parent.elapsed > U32_MAX || best[child].value.elapsed > U32_MAX {
          return None;
        }
        RebuildStep(t, goal, l, q, actions, at, child, predecessor.move);
        actions := Extend(t.ctx, actions, Availability(StateOf(t, predecessor.previous).tile, parent.elapsed),
                          predecessor.move);
        at := child;
      }
      AtGoal(l, actions, reversed, g, at);
      var result := TransportPlan(edge, t.ctx.domain, actions, best[g].value.elapsed);
      RebuiltCarries(t, l, actions, g, goal, result);
      var links := LinkIds(t.ctx, t.model, actions, t.start);
      if links.None? {
        return None;
      }
      plan := Some(result);
    }

    lemma AtGoal(l: Labels, actions: seq<TransportAction>, reversed: seq<ChainLink>, g: nat, at: nat)
      requires t.Valid() && Shaped(t, l) && Trail(t, l, reversed[..0], g, at) && Rebuilt(t, l, actions, at)
      ensures at == g && g < |l.best| && l.best[g].Some? && l.best[g].value.elapsed <= U32_MAX
      ensures Follow(t.ctx, actions, t.start).Some? && 0 < t.ctx.ii && Distinct(LinksOf(t.ctx, actions))
      ensures t.model.Valid() && t.ctx.target == t.model.target && t.ctx.ii == t.model.ii
    {
    }

    lemma NextOfTrail(l: Labels, q: seq<QueueEntry>, reversed: seq<ChainLink>, i: nat, g: nat, at: nat)
      requires Invariant(t, goal, l, q, None, {}) && i < |reversed| && Trail(t, l, reversed[..i + 1], g, at)
      requires g < |l.best| && l.best[g].Some?
      ensures var child, predecessor := reversed[i].state, reversed[i].from;
        && Trail(t, l, reversed[..i], g, child)
        && child < |l.best| == |l.predecessors| == Count(t) && child != StartId(t) && l.best[child].Some?
        && l.predecessors[child] == predecessor && predecessor == Via(at, predecessor.move)
        && at < |l.best| && l.best[at].Some?
        && l.best[at].value.elapsed <= l.best[child].value.elapsed <= l.best[g].value.elapsed
    {
      hide AllSettled, Queued, StateId, StateCount, StateFor, Terrain.Open, Advance, Terrain.Next;
      assert reversed[..i + 1][..i] == reversed[..i];
      TrailCosts(t, goal, l, q, reversed[..i], g, reversed[i].state);
      assert Grounded(t, l, reversed[i].state);
    }

    // The one-cycle hold that serves a consumer on the producer's own tile.
    ghost predicate HoldsOnce(plan: TransportPlan)
      requires t.Valid()
    {
      && plan.edge == edge && Carries(t, goal, plan)
      && plan.requiredSeparation == t.start.elapsed + 1 && |plan.actions| == 1 && LinksOf(t.ctx, plan.actions) == []
    }

    method Run() returns (result: RouteResult)
      requires t.Valid() && t.start.elapsed <= U32_MAX
      requires stateExpansions == 0 && queuePushes == 0 && queue == []
      modifies this`best, this`predecessors, this`finalized, this`queue, this`sequence, this`stateExpansions,
               this`queuePushes
      ensures t.start.tile != goal ==> Answered(result)
      ensures t.start.tile == goal ==>
        && (result.status == BudgetExceeded <==> maxQueuePushes == 0)
        && (result.status == NoPath <==> maxQueuePushes > 0 && !t.allowHold)
        && (result.status == InternalError <==> maxQueuePushes > 0 && t.allowHold && t.start.elapsed == U32_MAX)
        && (result.status == Success <==> maxQueuePushes > 0 && t.allowHold && t.start.elapsed < U32_MAX)
        && (result.status == Success ==> result.plan.Some? && HoldsOnce(result.plan.value))
    {
      hide *;
      var stateCount, start := StartLabels();
      best := seq(stateCount, _ => None);
      predecessors := seq(stateCount, _ => NoPredecessor);
      finalized := seq(stateCount, _ => false);
      best := best[start := Some(Cost(t.start.elapsed, 0, 0))];
      var pushed := Push(QueueEntry(Cost(t.start.elapsed, 0, 0), start, sequence));
      sequence := sequence + 1;
      if !pushed {
        result := RouteResult(BudgetExceeded, None);
        if t.start.tile != goal {
          TooScarce();
          Gives(result);
        }
        return;
      }
      if t.start.tile == goal {
        if !t.allowHold {
          return RouteResult(NoPath, None);
        }
        if t.start.elapsed == U32_MAX {
          return RouteResult(InternalError, None);
        }
        var hold := VirtualHold(t.ctx.domain, t.start.tile, t.start.elapsed, t.start.elapsed + 1);
        var plan := TransportPlan(edge, t.ctx.domain, [hold], t.start.elapsed + 1);
        HoldIsLegal(plan);
        return RouteResult(Success, Some(plan));
      }
      InitialLabels(Labels(best, predecessors, finalized), queue);
      OnlyStart(stateCount, start);
      NoneFinished(stateCount);
      result := Explore();
    }

    static lemma {:induction false} NoneFinished(n: nat)
      ensures Unfinished(seq(n, _ => false)) == n
    {
      if n > 0 {
        NoneFinished(n - 1);
        assert seq(n, _ => false)[..n - 1] == seq(n - 1, _ => false);
      }
    }

    lemma OnlyStart(n: nat, start: nat)
      requires start < n
      ensures Within(seq(n, _ => None)[start := Some(Cost(t.start.elapsed, 0, 0))], Span(t, 0))
    {
    }

    method StartLabels() returns (stateCount: nat, start: nat)
      requires t.Valid()
      ensures stateCount == Count(t) && start == StartId(t) && start < stateCount
    {
      StartIsItsState(t);
      stateCount, start := Count(t), StartId(t);
    }

    lemma InitialLabels(l: Labels, q: seq<QueueEntry>)
      requires t.Valid() && StartId(t) < Count(t)
      requires l.best == seq(Count(t), i => None)[StartId(t) := Some(Cost(t.start.elapsed, 0, 0))]
      requires l.predecessors == seq(Count(t), i => NoPredecessor) && l.finalized == seq(Count(t), i => false)
      requires |q| == 1 && q[0].cost == Cost(t.start.elapsed, 0, 0) && q[0].state == StartId(t)
      ensures Invariant(t, goal, l, q, None, {})
    {
      hide StateId, StateCount, StateFor, Advance, Relaxed;
      StartIsItsState(t);
    }

    lemma HoldIsLegal(plan: TransportPlan)
      requires t.Valid() && t.start.tile == goal && t.start.elapsed < U32_MAX && t.allowHold
      requires plan == TransportPlan(edge, t.ctx.domain,
                                     [VirtualHold(t.ctx.domain, t.start.tile, t.start.elapsed, t.start.elapsed + 1)],
                                     t.start.elapsed + 1)
      ensures HoldsOnce(plan)
    {
      hide StateId, StateCount, StateFor, Advance, Relaxed;
      var actions := plan.actions;
      assert actions[..0] == [] && Unroll([]) == [];
      assert Waits(0) == [] && Waits(1) == Waits(0) + [Wait];
      assert Unroll(actions) == [Wait];
      WalkOne(t.ctx, Wait, t.start);
      assert Follow(t.ctx, [], t.start) == Some(t.start);
      assert LinksOf(t.ctx, actions) == [];
    }
  }

  // ----- The public search -----

  datatype RouteOptions = RouteOptions(maxStateExpansions: nat, maxQueuePushes: nat, allowVirtualHold: bool)

  predicate PlacementFits(dfg: TargetDFG, model: ResourceModel, placement: NodePlacement, node: nat)
    requires dfg.HasNode(node)
  {
    && placement.node == node
    && InArray(placement.tile, model.target.rows, model.target.cols)
    && placement.issueSlot < model.ii
    && model.target.TileSupports(placement.tile, dfg.Node(node).operation)
  }

  // A value edge of a valid graph between fitting placements.
  ghost predicate Routed(dfg: TargetDFG, model: ResourceModel, edgeId: nat, producer: NodePlacement, consumer: NodePlacement) {
    && dfg.Valid(model.target) && dfg.targetName == model.target.name && dfg.HasEdge(edgeId)
    && var edge := dfg.Edge(edgeId);
    && edge.kind != MemoryEdge && dfg.HasNode(edge.src) && dfg.HasNode(edge.dst)
    && PlacementFits(dfg, model, producer, edge.src) && PlacementFits(dfg, model, consumer, edge.dst)
  }

  function TerrainFor(dfg: TargetDFG, model: ResourceModel, owners: seq<Option<Owner>>, edge: TargetEdge,
                      producer: NodePlacement, allowHold: bool): Terrain
    requires dfg.HasNode(edge.src)
  {
    var ready := dfg.Node(edge.src).outputReady;
    Terrain(ContextFor(model.target, model.ii, edge.kind, producer), model, owners, allowHold,
            Availability(producer.tile, if ready.Some? then ready.value else 0))
  }

  /** Between different tiles: the cheapest legal plan there is, or the reason why there is none within the limits. */
  method Search(dfg: TargetDFG, model: ResourceModel, table: ReservationTable, edgeId: nat,
                producer: NodePlacement, consumer: NodePlacement, options: RouteOptions) returns (result: RouteResult)
    requires model.Valid() && model.target.Valid() && |table.owners| == |model.resources|
    ensures result.status == UnsupportedEdge <==>
      dfg.Valid(model.target) && dfg.targetName == model.target.name && dfg.HasEdge(edgeId) &&
      dfg.Edge(edgeId).kind == MemoryEdge
    ensures !Routed(dfg, model, edgeId, producer, consumer) <==> result.status in {InvalidInput, UnsupportedEdge}
    ensures Routed(dfg, model, edgeId, producer, consumer) ==>
      var edge := dfg.Edge(edgeId);
      var t := TerrainFor(dfg, model, table.owners, edge, producer, options.allowVirtualHold);
      && t.Valid() && dfg.Node(edge.src).outputReady.Some?
      && result.status in {Success, NoPath, BudgetExceeded, InternalError}
      && (result.status == Success ==>
            && result.plan.Some?
            && PlanLegal(model.target, model.ii, edge, dfg.Node(edge.src).outputReady.value, producer, consumer,
                         result.plan.value)
            && Carries(t, consumer.tile, result.plan.value))
      && (result.status == Success && producer.tile != consumer.tile ==>
            && Optimal(t, consumer.tile, PlanCost(result.plan.value))
            && Fastest(t, consumer.tile, result.plan.value))
      && (result.status == Success ==>
            KeepsDistance(producer.tile, consumer.tile, dfg.Node(edge.src).outputReady.value, model.target.hopLatency,
                          result.plan.value))
      && (result.status == NoPath && producer.tile != consumer.tile ==> Unreachable(t, consumer.tile))
      && (result.status == InternalError && producer.tile != consumer.tile ==> TooLate(t, consumer.tile))
      && (result.status == BudgetExceeded && producer.tile != consumer.tile ==>
            options.maxStateExpansions < StateCount(model.target, model.ii) ||
            options.maxQueuePushes <= 5 * StateCount(model.target, model.ii))
    ensures Routed(dfg, model, edgeId, producer, consumer) && producer.tile == consumer.tile ==>
      var ready := dfg.Node(dfg.Edge(edgeId).src).outputReady;
      && (result.status == BudgetExceeded <==> options.maxQueuePushes == 0)
      && (result.status == NoPath <==> options.maxQueuePushes > 0 && !options.allowVirtualHold)
      && (result.status == InternalError <==>
            options.maxQueuePushes > 0 && options.allowVirtualHold && ready.value == U32_MAX)
      && (result.status == Success ==>
            result.plan.Some? && result.plan.value.requiredSeparation == ready.value + 1 && |result.plan.value.actions| == 1)
  {
    if !dfg.Valid(model.target) || dfg.targetName != model.target.name || !dfg.HasEdge(edgeId) {
      return RouteResult(InvalidInput, None);
    }
    var edge := dfg.Edge(edgeId);
    if edge.kind == MemoryEdge {
      return RouteResult(UnsupportedEdge, None);
    }
    if !PlacementFits(dfg, model, producer, edge.src) || !PlacementFits(dfg, model, consumer, edge.dst) {
      return RouteResult(InvalidInput, None);
    }
    var t := TerrainFor(dfg, model, table.owners, edge, producer, options.allowVirtualHold);
    Prepared(dfg, model, table.owners, edgeId, producer, consumer, options.allowVirtualHold);
    hide *;
    var impl := new RouteSearchImpl(t, edgeId, consumer.tile, options.maxStateExpansions, options.maxQueuePushes);
    result := impl.Run();
    impl.WhatIsPromised(result);
    if result.status == Success {
      CarriesLegal(dfg, model, edge, producer, consumer, t, result.plan.value);
      LegalKeepsDistance(model.target, model.ii, edge, dfg.Node(edge.src).outputReady.value, producer, consumer,
                         result.plan.value);
      if producer.tile != consumer.tile {
        OptimalIsFastest(t, consumer.tile, result.plan.value);
      }
    }
  }

  /** A link for every tile of the way at least, and the time they take. */
  ghost predicate KeepsDistance(from: TileCoord, to: TileCoord, ready: nat, hopLatency: nat, plan: TransportPlan) {
    && AllSteps(plan.actions) >= Distance(from, to)
    && plan.requiredSeparation >= ready + hopLatency * Distance(from, to)
  }

  lemma LegalKeepsDistance(target: TargetModel, ii: nat, edge: TargetEdge, ready: nat, producer: NodePlacement,
                           consumer: NodePlacement, plan: TransportPlan)
    requires PlanLegal(target, ii, edge, ready, producer, consumer, plan)
    ensures KeepsDistance(producer.tile, consumer.tile, ready, target.hopLatency, plan)
  {
    hide Follow, LinksOf, AllSteps, Distance;
    TakesItsDistance(ContextFor(target, ii, edge.kind, producer), plan.actions, Availability(producer.tile, ready));
  }

  // What the search starts from.
  lemma Prepared(dfg: TargetDFG, model: ResourceModel, owners: seq<Option<Owner>>, edgeId: nat, producer: NodePlacement,
                 consumer: NodePlacement, allowHold: bool)
    requires model.Valid() && model.target.Valid() && |owners| == |model.resources|
    requires dfg.Valid(model.target) && dfg.targetName == model.target.name && dfg.HasEdge(edgeId)
    requires var edge := dfg.Edge(edgeId);
      && edge.kind != MemoryEdge
      && PlacementFits(dfg, model, producer, edge.src) && PlacementFits(dfg, model, consumer, edge.dst)
    ensures Routed(dfg, model, edgeId, producer, consumer)
    ensures var edge := dfg.Edge(edgeId);
      && dfg.HasNode(edge.src) && dfg.Node(edge.src).outputReady.Some?
      && var t := TerrainFor(dfg, model, owners, edge, producer, allowHold);
      && t.Valid() && t.start == Availability(producer.tile, dfg.Node(edge.src).outputReady.value)
      && t.owners == owners && t.allowHold == allowHold && Count(t) == StateCount(model.target, model.ii)
  {
    hide StateCount, InArray, TargetModel.TileSupports, TargetDFG.HasNode, TargetDFG.HasEdge;
  }

  lemma CarriesLegal(dfg: TargetDFG, model: ResourceModel, edge: TargetEdge, producer: NodePlacement,
                     consumer: NodePlacement, t: Terrain, plan: TransportPlan)
    requires t.Valid() && dfg.HasNode(edge.src) && dfg.Node(edge.src).outputReady.Some?
    requires t == TerrainFor(dfg, model, t.owners, edge, producer, t.allowHold)
    requires Carries(t, consumer.tile, plan) && plan.edge == edge.id
    ensures PlanLegal(model.target, model.ii, edge, dfg.Node(edge.src).outputReady.value, producer, consumer, plan)
  {
    hide Terrain.FreeWalk, ValidRoute, TargetDFG.HasNode;
  }
}
