// The finite graph of routing states: which moves are open, what they cost, what a labelling of it proves.

module RouteGraph {
  import opened Wrappers
  import opened Mesh
  import opened Target
  import opened Resources
  import opened Reservation
  import opened Mapping
  import opened Walks
  import opened RouteStates
  import Verifier

  /** Elapsed cycles first, then hold cycles, then hops. */
  datatype Cost = Cost(elapsed: nat, holds: nat, hops: nat)

  predicate Before(a: Cost, b: Cost) {
    if a.elapsed != b.elapsed then a.elapsed < b.elapsed
    else if a.holds != b.holds then a.holds < b.holds
    else a.hops < b.hops
  }

  /** Everything a route search only reads: the network, the reservations, the policy and the producer. */
  datatype Terrain = Terrain(
    ctx: RouteContext,
    model: ResourceModel,
    owners: seq<Option<Owner>>,
    allowHold: bool,
    start: Availability)
  {
    ghost predicate Valid() {
      && ctx.Valid() && model.Valid() && ctx.target == model.target && ctx.ii == model.ii
      && |owners| == |model.resources|
      && 0 < ctx.target.rows && 0 < ctx.target.cols
      && InArray(start.tile, ctx.target.rows, ctx.target.cols)
    }

    ghost predicate Open(move: Move, state: RouteState) {
      match move
      case Wait => allowHold
      case Hop(direction) =>
        && ctx.Onward(state.tile, direction).Some?
        && Verifier.FreeLink(model, owners, Link(ctx.domain, state.tile, direction, state.slot))
    }

    // The state an open move leads to.
    function Next(move: Move, state: RouteState): RouteState
      requires 0 < ctx.ii
    {
      match move
      case Wait => RouteState(state.tile, Advance(state.slot, 1, ctx.ii))
      case Hop(direction) =>
        var tile := ctx.Onward(state.tile, direction);
        RouteState(if tile.Some? then tile.value else state.tile, Advance(state.slot, ctx.target.hopLatency, ctx.ii))
    }

    function Add(move: Move, cost: Cost): Cost {
      match move
      case Wait => Cost(cost.elapsed + 1, cost.holds + 1, cost.hops)
      case Hop(_) => Cost(cost.elapsed + ctx.target.hopLatency, cost.holds, cost.hops + 1)
    }

    // A gap-free walk from the producer over free links; waiting only where holds are allowed.
    ghost predicate FreeWalk(moves: seq<Move>) {
      && 0 < ctx.ii
      && Walk(ctx, moves, start).Some?
      && (forall r :: r in WalkLinks(ctx, moves, start) ==> Verifier.FreeLink(model, owners, r))
      && (Wait in moves ==> allowHold)
    }

    // What a walk costs.
    function CostOf(moves: seq<Move>): Cost {
      if moves == [] then Cost(start.elapsed, 0, 0)
      else Add(moves[|moves| - 1], CostOf(moves[..|moves| - 1]))
    }

    lemma {:induction false} CostIsTime(moves: seq<Move>)
      requires Walk(ctx, moves, start).Some?
      ensures CostOf(moves).elapsed == Walk(ctx, moves, start).value.elapsed
    {
      if moves != [] {
        CostIsTime(moves[..|moves| - 1]);
      }
    }

    // Openness is a matter of the state alone, so walks can be followed state by state.
    lemma FreeWalkSnoc(moves: seq<Move>, move: Move)
      requires Valid()
      ensures FreeWalk(moves + [move]) <==>
        FreeWalk(moves) && Open(move, StateAt(ctx, Walk(ctx, moves, start).value))
      ensures FreeWalk(moves + [move]) ==>
        StateAt(ctx, Walk(ctx, moves + [move], start).value) ==
        Next(move, StateAt(ctx, Walk(ctx, moves, start).value))
      ensures CostOf(moves + [move]) == Add(move, CostOf(moves))
    {
      hide Advance, Walk, WalkLinks, RouteContext.Onward, Verifier.FreeLink;
      var longer := moves + [move];
      assert longer[..|moves|] == moves && longer[|moves|] == move;
      assert Wait in longer <==> Wait in moves || move == Wait;
      if Walk(ctx, longer, start).Some? {
        WalkPrefix(moves, move);
      }
      if Walk(ctx, moves, start).Some? {
        var here := Walk(ctx, moves, start).value;
        WalkSnoc(ctx, moves, move, start);
        AdvanceCompose(ctx.issueSlot, here.elapsed, if move.Wait? then 1 else ctx.target.hopLatency, ctx.ii);
        if Walk(ctx, longer, start).Some? && move.Hop? {
          assert LinksOfMove(ctx, move, here)[0] == ctx.LinkAt(here.tile, move.direction, here.elapsed);
        }
      }
    }

    lemma WalkPrefix(moves: seq<Move>, move: Move)
      requires Walk(ctx, moves + [move], start).Some?
      ensures Walk(ctx, moves, start).Some?
    {
      assert (moves + [move])[..|moves|] == moves;
    }
  }

  datatype Predecessor = NoPredecessor | Via(previous: nat, move: Move)

  datatype QueueEntry = QueueEntry(cost: Cost, state: nat, sequence: nat)

  /** Per state: the best cost known, how it was reached, and whether it is final. */
  datatype Labels = Labels(best: seq<Option<Cost>>, predecessors: seq<Predecessor>, finalized: seq<bool>)

  function Count(t: Terrain): nat {
    StateCount(t.ctx.target, t.ctx.ii)
  }

  function StateOf(t: Terrain, id: nat): RouteState
    requires 0 < t.ctx.target.rows && 0 < t.ctx.target.cols
  {
    StateFor(t.ctx.target, id)
  }

  function IdOf(t: Terrain, state: RouteState): nat {
    StateId(t.ctx.target, state)
  }

  function StartId(t: Terrain): nat
    requires 0 < t.ctx.ii
  {
    IdOf(t, StateAt(t.ctx, t.start))
  }

  ghost predicate Shaped(t: Terrain, l: Labels) {
    |l.best| == |l.predecessors| == |l.finalized| == Count(t)
  }

  // The label of s is the cost of a real way of getting there, one open move after a final state.
  ghost predicate Grounded(t: Terrain, l: Labels, s: nat)
    requires t.Valid() && Shaped(t, l) && s < Count(t)
  {
    l.best[s].Some? ==>
      && StateOf(t, s).slot == t.ctx.SlotAt(l.best[s].value.elapsed)
      && !Before(l.best[s].value, t.CostOf([]))
      && (if s == StartId(t) then l.best[s].value == t.CostOf([]) else
            && l.predecessors[s].Via?
            && Reaches(t, l, l.predecessors[s].previous, l.predecessors[s].move, s))
  }

  ghost predicate Reaches(t: Terrain, l: Labels, p: nat, move: Move, s: nat)
    requires t.Valid() && Shaped(t, l) && s < Count(t) && l.best[s].Some?
  {
    && p < Count(t) && l.finalized[p] && l.best[p].Some?
    && t.Open(move, StateOf(t, p)) && t.Next(move, StateOf(t, p)) == StateOf(t, s)
    && l.best[s].value == t.Add(move, l.best[p].value)
  }

  // Nothing cheaper is known past an open move out of p than through p.
  ghost predicate Relaxed(t: Terrain, l: Labels, p: nat, move: Move)
    requires t.Valid() && Shaped(t, l) && p < Count(t) && l.best[p].Some?
  {
    t.Open(move, StateOf(t, p)) ==>
      var d := IdOf(t, t.Next(move, StateOf(t, p)));
      && d < Count(t) && l.best[d].Some?
      && !Before(t.Add(move, l.best[p].value), l.best[d].value)
  }

  // A final state has been expanded (the one being expanded: by the moves done so far).
  ghost predicate Settled(t: Terrain, goal: TileCoord, l: Labels, p: nat, expanding: Option<nat>, done: set<Move>)
    requires t.Valid() && Shaped(t, l) && p < Count(t)
  {
    l.finalized[p] ==>
      && l.best[p].Some? && StateOf(t, p).tile != goal
      && forall move :: expanding != Some(p) || move in done ==> Relaxed(t, l, p, move)
  }

  // No state still open is cheaper than p.
  ghost predicate Cheapest(t: Terrain, l: Labels, p: nat)
    requires Shaped(t, l) && p < Count(t)
  {
    l.best[p].Some? &&
    forall q :: 0 <= q < Count(t) && !l.finalized[q] && l.best[q].Some? ==> !Before(l.best[q].value, l.best[p].value)
  }

  // No final state is more expensive than p.
  ghost predicate Dearest(t: Terrain, l: Labels, p: nat)
    requires Shaped(t, l) && p < Count(t)
  {
    l.best[p].Some? &&
    forall q :: 0 <= q < Count(t) && l.finalized[q] && l.best[q].Some? ==> !Before(l.best[p].value, l.best[q].value)
  }

  ghost predicate Queued(t: Terrain, l: Labels, queue: seq<QueueEntry>) {
    && Shaped(t, l)
    && (forall i :: 0 <= i < |queue| ==> queue[i].state < Count(t))
    && (forall q :: 0 <= q < Count(t) && !l.finalized[q] && l.best[q].Some? ==>
          exists i :: 0 <= i < |queue| && queue[i].state == q && queue[i].cost == l.best[q].value)
  }

  ghost predicate AllGrounded(t: Terrain, l: Labels)
    requires t.Valid() && Shaped(t, l)
  {
    forall s :: 0 <= s < Count(t) ==> Grounded(t, l, s)
  }

  ghost predicate AllSettled(t: Terrain, goal: TileCoord, l: Labels, expanding: Option<nat>, done: set<Move>)
    requires t.Valid() && Shaped(t, l)
  {
    forall p :: 0 <= p < Count(t) ==>
      Settled(t, goal, l, p, expanding, done) && (l.finalized[p] ==> Cheapest(t, l, p))
  }

  /** What the search maintains from pop to pop. */
  ghost predicate Invariant(t: Terrain, goal: TileCoord, l: Labels, queue: seq<QueueEntry>,
                            expanding: Option<nat>, done: set<Move>)
  {
    && t.Valid() && Shaped(t, l) && Queued(t, l, queue)
    && StartId(t) < Count(t) && l.best[StartId(t)] == Some(t.CostOf([]))
    && AllGrounded(t, l)
    && AllSettled(t, goal, l, expanding, done)
    && (expanding.Some? ==>
          expanding.value < Count(t) && l.finalized[expanding.value] && Dearest(t, l, expanding.value))
  }

  // Every free walk ends in a final state at no less than its label, or an open state is no dearer than the walk.
  ghost predicate Covered(t: Terrain, l: Labels, moves: seq<Move>)
    requires t.Valid() && Shaped(t, l) && Walk(t.ctx, moves, t.start).Some?
  {
    var e := IdOf(t, StateAt(t.ctx, Walk(t.ctx, moves, t.start).value));
    || (e < Count(t) && l.finalized[e] && l.best[e].Some? && !Before(t.CostOf(moves), l.best[e].value))
    || exists q :: 0 <= q < Count(t) && !l.finalized[q] && l.best[q].Some? && !Before(t.CostOf(moves), l.best[q].value)
  }

  lemma AddMonotone(t: Terrain, move: Move, a: Cost, b: Cost)
    requires 0 < t.ctx.target.hopLatency
    ensures !Before(b, a) ==> !Before(t.Add(move, b), t.Add(move, a))
    ensures Before(a, t.Add(move, a)) && !Before(t.Add(move, a), a)
  {
  }

  lemma {:induction false} WalksCovered(t: Terrain, goal: TileCoord, l: Labels, queue: seq<QueueEntry>, moves: seq<Move>)
    requires Invariant(t, goal, l, queue, None, {}) && t.FreeWalk(moves)
    ensures Covered(t, l, moves)
  {
    if moves == [] {
      StartCovered(t, goal, l, queue);
    } else {
      var before, move := moves[..|moves| - 1], moves[|moves| - 1];
      assert moves == before + [move];
      t.FreeWalkSnoc(before, move);
      WalksCovered(t, goal, l, queue, before);
      StepCovered(t, goal, l, queue, before, move);
    }
  }

  lemma StartCovered(t: Terrain, goal: TileCoord, l: Labels, queue: seq<QueueEntry>)
    requires Invariant(t, goal, l, queue, None, {})
    ensures Covered(t, l, [])
  {
    hide Advance, Grounded, Settled, Queued, Cheapest, StateId, StateCount;
    assert l.best[StartId(t)] == Some(t.CostOf([]));
  }

  lemma StepCovered(t: Terrain, goal: TileCoord, l: Labels, queue: seq<QueueEntry>, before: seq<Move>, move: Move)
    requires Invariant(t, goal, l, queue, None, {}) && t.FreeWalk(before) && t.FreeWalk(before + [move])
    requires Covered(t, l, before)
    ensures Covered(t, l, before + [move])
  {
    hide Advance, Grounded, Queued, Cheapest, StateId, StateCount, Walk, WalkLinks;
    t.FreeWalkSnoc(before, move);
    var here := Walk(t.ctx, before, t.start).value;
    AddMonotone(t, move, t.CostOf(before), t.CostOf(before));
    var e := IdOf(t, StateAt(t.ctx, here));
    if e < Count(t) && l.finalized[e] && l.best[e].Some? && !Before(t.CostOf(before), l.best[e].value) {
      StateOfWalk(t, before);
      assert Settled(t, goal, l, e, None, {});
      assert Relaxed(t, l, e, move);
      AddMonotone(t, move, l.best[e].value, t.CostOf(before));
    }
  }

  // A walk ends in range, so its state is the one its id names.
  lemma {:induction false} StateOfWalk(t: Terrain, moves: seq<Move>)
    requires t.Valid() && Walk(t.ctx, moves, t.start).Some?
    ensures InRange(t.ctx.target, t.ctx.ii, StateAt(t.ctx, Walk(t.ctx, moves, t.start).value))
    ensures var state := StateAt(t.ctx, Walk(t.ctx, moves, t.start).value);
            IdOf(t, state) < Count(t) && StateOf(t, IdOf(t, state)) == state
  {
    hide Advance, StateId, StateCount, StateFor;
    if moves != [] {
      StateOfWalk(t, moves[..|moves| - 1]);
      var here := Walk(t.ctx, moves[..|moves| - 1], t.start).value;
      MoveStaysInRange(t.ctx, moves[|moves| - 1], here);
    }
    StateRoundTrip(t.ctx.target, t.ctx.ii, StateAt(t.ctx, Walk(t.ctx, moves, t.start).value));
  }

  lemma MoveStaysInRange(ctx: RouteContext, move: Move, here: Availability)
    requires InArray(here.tile, ctx.target.rows, ctx.target.cols) && Take(ctx, move, here).Some?
    ensures InArray(Take(ctx, move, here).value.tile, ctx.target.rows, ctx.target.cols)
  {
    if move.Hop? {
      NeighborIsSymmetric(here.tile, move.direction, ctx.target.rows, ctx.target.cols);
    }
  }

  // An exhausted queue proves that no free walk ends on the goal.
  lemma ExhaustedMeansNoPath(t: Terrain, goal: TileCoord, l: Labels, moves: seq<Move>)
    requires Invariant(t, goal, l, [], None, {}) && t.FreeWalk(moves)
    ensures Walk(t.ctx, moves, t.start).value.tile != goal
  {
    hide Advance, Grounded, Cheapest, StateId, StateCount, Walk, WalkLinks, Relaxed, StateFor;
    WalksCovered(t, goal, l, [], moves);
    StateOfWalk(t, moves);
    var e := IdOf(t, StateAt(t.ctx, Walk(t.ctx, moves, t.start).value));
    assert Settled(t, goal, l, e, None, {});
  }

  // The cheapest open state, once it lies on the goal tile, is as cheap as any free walk to the goal.
  lemma FirstGoalIsCheapest(t: Terrain, goal: TileCoord, l: Labels, queue: seq<QueueEntry>, g: nat, moves: seq<Move>)
    requires Invariant(t, goal, l, queue, None, {}) && t.FreeWalk(moves)
    requires Walk(t.ctx, moves, t.start).value.tile == goal
    requires g < Count(t) && l.best[g].Some? && Cheapest(t, l, g)
    ensures !Before(t.CostOf(moves), l.best[g].value)
  {
    hide Advance, Grounded, StateId, StateCount, Walk, WalkLinks, Relaxed, StateFor, Queued;
    WalksCovered(t, goal, l, queue, moves);
    StateOfWalk(t, moves);
    var e := IdOf(t, StateAt(t.ctx, Walk(t.ctx, moves, t.start).value));
    assert Settled(t, goal, l, e, None, {});
  }

  // ----- How the search moves from labelling to labelling -----

  // What relaxing an open move out of the state being expanded needs to know.
  ghost predicate Relaxable(t: Terrain, goal: TileCoord, l: Labels, queue: seq<QueueEntry>, c: nat, done: set<Move>,
                            move: Move, d: nat)
  {
    && Invariant(t, goal, l, queue, Some(c), done) && l.best[c].Some?
    && t.Open(move, StateOf(t, c)) && d < Count(t)
    && d == IdOf(t, t.Next(move, StateOf(t, c))) && StateOf(t, d) == t.Next(move, StateOf(t, c))
  }

  function Relabelled(l: Labels, d: nat, cost: Cost, from: Predecessor): Labels
    requires d < |l.best| == |l.predecessors|
  {
    Labels(l.best[d := Some(cost)], l.predecessors[d := from], l.finalized)
  }

  lemma RelaxStep(t: Terrain, goal: TileCoord, l: Labels, queue: seq<QueueEntry>, c: nat, done: set<Move>, move: Move,
                  d: nat, entry: QueueEntry)
    requires Relaxable(t, goal, l, queue, c, done, move, d)
    requires entry.cost == t.Add(move, l.best[c].value) && entry.state == d
    requires !l.finalized[d] && (l.best[d].None? || Before(entry.cost, l.best[d].value))
    ensures Invariant(t, goal, Relabelled(l, d, entry.cost, Via(c, move)), queue + [entry], Some(c), done + {move})
  {
    var l' := Relabelled(l, d, entry.cost, Via(c, move));
    RelaxGrounded(t, goal, l, queue, c, done, move, d, entry);
    RelaxSettled(t, goal, l, queue, c, done, move, d, entry);
    RelaxQueued(t, l, queue, d, entry, Via(c, move));
    hide AllGrounded, AllSettled, Queued, StateId, StateCount, StateFor, Terrain.Open, Terrain.Next;
    StartKept(t, goal, l, queue, c, done, d, entry);
    assert Dearest(t, l', c);
  }

  lemma StartKept(t: Terrain, goal: TileCoord, l: Labels, queue: seq<QueueEntry>, c: nat, done: set<Move>, d: nat,
                  entry: QueueEntry)
    requires Invariant(t, goal, l, queue, Some(c), done) && d < Count(t) && l.best[c].Some?
    requires !l.finalized[d] && (l.best[d].None? || Before(entry.cost, l.best[d].value))
    requires Before(l.best[c].value, entry.cost)
    ensures d != StartId(t) && d != c
  {
    hide AllSettled, Queued, StateId, StateCount, StateFor, Terrain.Open, Terrain.Next, Reaches;
    assert Grounded(t, l, c);
  }

  lemma RelaxGrounded(t: Terrain, goal: TileCoord, l: Labels, queue: seq<QueueEntry>, c: nat, done: set<Move>,
                      move: Move, d: nat, entry: QueueEntry)
    requires Relaxable(t, goal, l, queue, c, done, move, d)
    requires entry.cost == t.Add(move, l.best[c].value) && entry.state == d
    requires !l.finalized[d] && (l.best[d].None? || Before(entry.cost, l.best[d].value))
    ensures var l' := Relabelled(l, d, entry.cost, Via(c, move));
      Shaped(t, l') && AllGrounded(t, l') && l'.best[StartId(t)] == Some(t.CostOf([]))
  {
    hide AllSettled, Queued, StateId, StateCount, StateFor, Terrain.Open, Advance;
    AddMonotone(t, move, l.best[c].value, l.best[c].value);
    StartKept(t, goal, l, queue, c, done, d, entry);
    var l' := Relabelled(l, d, entry.cost, Via(c, move));
    forall s | 0 <= s < Count(t)
      ensures Grounded(t, l', s)
    {
      assert Grounded(t, l, s);
      if s == d {
        assert Grounded(t, l, c);
        var elapsed := l.best[c].value.elapsed;
        AdvanceCompose(t.ctx.issueSlot, elapsed, if move.Wait? then 1 else t.ctx.target.hopLatency, t.ctx.ii);
      }
    }
  }

  lemma RelaxSettled(t: Terrain, goal: TileCoord, l: Labels, queue: seq<QueueEntry>, c: nat, done: set<Move>,
                     move: Move, d: nat, entry: QueueEntry)
    requires Relaxable(t, goal, l, queue, c, done, move, d)
    requires entry.cost == t.Add(move, l.best[c].value) && entry.state == d
    requires !l.finalized[d] && (l.best[d].None? || Before(entry.cost, l.best[d].value))
    ensures AllSettled(t, goal, Relabelled(l, d, entry.cost, Via(c, move)), Some(c), done + {move})
  {
    hide AllGrounded, Queued, StateId, StateCount, StateFor, Terrain.Open, Advance, Terrain.Next;
    AddMonotone(t, move, l.best[c].value, l.best[c].value);
    var l' := Relabelled(l, d, entry.cost, Via(c, move));
    forall p | 0 <= p < Count(t)
      ensures Settled(t, goal, l', p, Some(c), done + {move})
      ensures l'.finalized[p] ==> Cheapest(t, l', p)
    {
      assert Settled(t, goal, l, p, Some(c), done);
      if l.finalized[p] {
        assert Cheapest(t, l, p);
        RelaxedKept(t, l, p, c, done, move, d, entry);
      }
    }
  }

  lemma RelaxedKept(t: Terrain, l: Labels, p: nat, c: nat, done: set<Move>, move: Move, d: nat, entry: QueueEntry)
    requires t.Valid() && Shaped(t, l) && p < Count(t) && d < Count(t) && c < Count(t) && p != d
    requires l.best[p].Some? && (l.best[d].None? || Before(entry.cost, l.best[d].value))
    requires p == c ==> entry.cost == t.Add(move, l.best[c].value) && d == IdOf(t, t.Next(move, StateOf(t, c)))
    requires forall m :: Some(c) != Some(p) || m in done ==> Relaxed(t, l, p, m)
    ensures forall m :: Some(c) != Some(p) || m in done + {move} ==>
      Relaxed(t, Relabelled(l, d, entry.cost, Via(c, move)), p, m)
  {
    hide StateId, StateCount, StateFor, Terrain.Open, Advance, Terrain.Next, Terrain.Valid;
    forall m | c != p || m in done + {move}
      ensures Relaxed(t, Relabelled(l, d, entry.cost, Via(c, move)), p, m)
    {
      if c != p || m in done {
        assert Relaxed(t, l, p, m);
      }
    }
  }

  lemma RelaxQueued(t: Terrain, l: Labels, queue: seq<QueueEntry>, d: nat, entry: QueueEntry, from: Predecessor)
    requires Queued(t, l, queue) && d < Count(t) && entry.state == d
    ensures Queued(t, Relabelled(l, d, entry.cost, from), queue + [entry])
  {
    hide StateCount;
    var l' := Relabelled(l, d, entry.cost, from);
    forall q | 0 <= q < Count(t) && !l'.finalized[q] && l'.best[q].Some?
      ensures exists i :: 0 <= i < |queue + [entry]| && (queue + [entry])[i].state == q &&
                          (queue + [entry])[i].cost == l'.best[q].value
    {
      if q == d {
        assert (queue + [entry])[|queue|] == entry;
      } else {
        var i :| 0 <= i < |queue| && queue[i].state == q && queue[i].cost == l.best[q].value;
        assert (queue + [entry])[i] == queue[i];
      }
    }
  }

  // A move that leads to a final or an already cheaper state needs no new label.
  lemma NoBetter(t: Terrain, goal: TileCoord, l: Labels, queue: seq<QueueEntry>, c: nat, done: set<Move>, move: Move,
                 d: nat)
    requires Relaxable(t, goal, l, queue, c, done, move, d)
    requires l.finalized[d] || (l.best[d].Some? && !Before(t.Add(move, l.best[c].value), l.best[d].value))
    ensures Invariant(t, goal, l, queue, Some(c), done + {move})
  {
    hide AllGrounded, Queued, StateId, StateCount, StateFor, Terrain.Open, Advance, Terrain.Next;
    AddMonotone(t, move, l.best[c].value, l.best[c].value);
    assert Settled(t, goal, l, d, Some(c), done);
    assert Relaxed(t, l, c, move);
    forall p | 0 <= p < Count(t)
      ensures Settled(t, goal, l, p, Some(c), done + {move}) && (l.finalized[p] ==> Cheapest(t, l, p))
    {
      assert Settled(t, goal, l, p, Some(c), done);
    }
  }

  // A closed move needs no expansion.
  lemma ClosedMove(t: Terrain, goal: TileCoord, l: Labels, queue: seq<QueueEntry>, c: nat, done: set<Move>, move: Move)
    requires Invariant(t, goal, l, queue, Some(c), done)
    requires !t.Open(move, StateOf(t, c))
    ensures Invariant(t, goal, l, queue, Some(c), done + {move})
  {
    hide AllGrounded, Queued, StateId, StateCount, StateFor, Terrain.Open, Advance, Terrain.Next, Dearest, Cheapest;
    assert l.best[c].Some? ==> Relaxed(t, l, c, move);
    forall p | 0 <= p < Count(t)
      ensures Settled(t, goal, l, p, Some(c), done + {move}) && (l.finalized[p] ==> Cheapest(t, l, p))
    {
      assert Settled(t, goal, l, p, Some(c), done);
    }
  }

  // With every move tried, the state is fully expanded.
  lemma FullyExpanded(t: Terrain, goal: TileCoord, l: Labels, queue: seq<QueueEntry>, c: nat, done: set<Move>)
    requires Invariant(t, goal, l, queue, Some(c), done)
    requires forall move :: move in done
    ensures Invariant(t, goal, l, queue, None, {})
  {
    hide AllGrounded, Queued, StateId, StateCount, StateFor, Relaxed, Cheapest;
    forall p | 0 <= p < Count(t)
      ensures Settled(t, goal, l, p, None, {}) && (l.finalized[p] ==> Cheapest(t, l, p))
    {
      assert Settled(t, goal, l, p, Some(c), done);
    }
  }

  // ----- Popping -----

  ghost predicate Least(queue: seq<QueueEntry>, i: nat)
    requires i < |queue|
  {
    forall j :: 0 <= j < |queue| ==> !Before(queue[j].cost, queue[i].cost)
  }

  // An outdated entry can be dropped.
  lemma StaleEntry(t: Terrain, goal: TileCoord, l: Labels, queue: seq<QueueEntry>, i: nat)
    requires Invariant(t, goal, l, queue, None, {}) && i < |queue|
    requires l.finalized[queue[i].state] || l.best[queue[i].state] != Some(queue[i].cost)
    ensures Invariant(t, goal, l, queue[..i] + queue[i + 1..], None, {})
  {
    hide AllGrounded, AllSettled, StateId, StateCount;
    StillQueued(t, l, l, queue, i);
  }

  lemma StillQueued(t: Terrain, l: Labels, l': Labels, queue: seq<QueueEntry>, i: nat)
    requires Queued(t, l, queue) && i < |queue| && Shaped(t, l') && l'.best == l.best
    requires l'.finalized[queue[i].state] || l.best[queue[i].state] != Some(queue[i].cost)
    requires forall q :: 0 <= q < Count(t) && !l'.finalized[q] ==> !l.finalized[q]
    ensures Queued(t, l', queue[..i] + queue[i + 1..])
  {
    hide StateCount;
    var rest := queue[..i] + queue[i + 1..];
    assert forall j :: 0 <= j < |rest| ==> rest[j] == queue[if j < i then j else j + 1];
    forall q | 0 <= q < Count(t) && !l'.finalized[q] && l'.best[q].Some?
      ensures exists j :: 0 <= j < |rest| && rest[j].state == q && rest[j].cost == l'.best[q].value
    {
      var j :| 0 <= j < |queue| && queue[j].state == q && queue[j].cost == l.best[q].value;
      assert rest[if j < i then j else j - 1] == queue[j];
    }
  }

  // The cheapest entry, if current, names a cheapest open state.
  lemma LeastIsCheapest(t: Terrain, goal: TileCoord, l: Labels, queue: seq<QueueEntry>, i: nat)
    requires Invariant(t, goal, l, queue, None, {}) && i < |queue| && Least(queue, i)
    requires l.best[queue[i].state] == Some(queue[i].cost)
    ensures Cheapest(t, l, queue[i].state)
  {
    hide AllGrounded, AllSettled, StateId, StateCount;
    forall q | 0 <= q < Count(t) && !l.finalized[q] && l.best[q].Some?
      ensures !Before(l.best[q].value, queue[i].cost)
    {
      var j :| 0 <= j < |queue| && queue[j].state == q && queue[j].cost == l.best[q].value;
    }
  }

  function Finalized(l: Labels, c: nat): Labels
    requires c < |l.finalized|
  {
    Labels(l.best, l.predecessors, l.finalized[c := true])
  }

  // Finalising it keeps everything; its expansion starts.
  lemma FinalizeStep(t: Terrain, goal: TileCoord, l: Labels, queue: seq<QueueEntry>, i: nat, c: nat)
    requires Invariant(t, goal, l, queue, None, {}) && i < |queue| && Least(queue, i) && c == queue[i].state
    requires l.best[c] == Some(queue[i].cost) && !l.finalized[c] && StateOf(t, c).tile != goal
    ensures Invariant(t, goal, Finalized(l, c), queue[..i] + queue[i + 1..], Some(c), {})
  {
    var l' := Finalized(l, c);
    LeastIsCheapest(t, goal, l, queue, i);
    StillQueued(t, l, l', queue, i);
    FinalizeGrounded(t, goal, l, queue, c);
    FinalizeSettled(t, goal, l, queue, c);
    hide AllGrounded, AllSettled, Queued, StateId, StateCount, StateFor, Cheapest;
  }

  lemma FinalizeGrounded(t: Terrain, goal: TileCoord, l: Labels, queue: seq<QueueEntry>, c: nat)
    requires Invariant(t, goal, l, queue, None, {}) && c < Count(t)
    ensures Shaped(t, Finalized(l, c)) && AllGrounded(t, Finalized(l, c))
  {
    hide AllSettled, Queued, StateId, StateCount, StateFor, Terrain.Open, Terrain.Next;
    forall s | 0 <= s < Count(t)
      ensures Grounded(t, Finalized(l, c), s)
    {
      assert Grounded(t, l, s);
    }
  }

  lemma FinalizeSettled(t: Terrain, goal: TileCoord, l: Labels, queue: seq<QueueEntry>, c: nat)
    requires Invariant(t, goal, l, queue, None, {}) && c < Count(t) && !l.finalized[c]
    requires l.best[c].Some? && Cheapest(t, l, c) && StateOf(t, c).tile != goal
    ensures AllSettled(t, goal, Finalized(l, c), Some(c), {})
    ensures Dearest(t, Finalized(l, c), c)
  {
    hide AllGrounded, Queued, StateId, StateCount, StateFor, Terrain.Open, Terrain.Next;
    var l' := Finalized(l, c);
    forall p | 0 <= p < Count(t)
      ensures Settled(t, goal, l', p, Some(c), {}) && (l'.finalized[p] ==> Cheapest(t, l', p))
      ensures l'.finalized[p] && l'.best[p].Some? ==> !Before(l'.best[c].value, l'.best[p].value)
    {
      assert Settled(t, goal, l, p, None, {});
      if p != c && l.finalized[p] {
        assert Cheapest(t, l, p);
        forall m
          ensures Relaxed(t, l', p, m)
        {
          assert Relaxed(t, l, p, m);
        }
      }
    }
  }
}
