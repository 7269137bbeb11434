// Unit-step walks over (tile, slot) states: the common ground between transport plans,
// the shortest-route search and the exhaustive oracle.

module Walks {
  import opened Wrappers
  import opened Mesh
  import opened Target
  import opened Resources
  import opened Mapping

  datatype Move = Hop(direction: Direction) | Wait

  datatype RouteState = RouteState(tile: TileCoord, slot: nat)

  function StateAt(ctx: RouteContext, here: Availability): RouteState
    requires 0 < ctx.ii
  {
    RouteState(here.tile, ctx.SlotAt(here.elapsed))
  }

  function Take(ctx: RouteContext, move: Move, here: Availability): Option<Availability> {
    match move
    case Wait => Some(Availability(here.tile, here.elapsed + 1))
    case Hop(direction) =>
      var next := ctx.Onward(here.tile, direction);
      if next.None? then None else Some(Availability(next.value, here.elapsed + ctx.target.hopLatency))
  }

  function Walk(ctx: RouteContext, moves: seq<Move>, start: Availability): Option<Availability> {
    if moves == [] then Some(start)
    else
      var here := Walk(ctx, moves[..|moves| - 1], start);
      if here.None? then None else Take(ctx, moves[|moves| - 1], here.value)
  }

  function LinksOfMove(ctx: RouteContext, move: Move, here: Availability): seq<Resource>
    requires 0 < ctx.ii
  {
    if move.Hop? then [ctx.LinkAt(here.tile, move.direction, here.elapsed)] else []
  }

  function WalkLinks(ctx: RouteContext, moves: seq<Move>, start: Availability): seq<Resource>
    requires 0 < ctx.ii && Walk(ctx, moves, start).Some?
  {
    if moves == [] then []
    else
      var before := moves[..|moves| - 1];
      WalkLinks(ctx, before, start) + LinksOfMove(ctx, moves[|moves| - 1], Walk(ctx, before, start).value)
  }

  lemma {:induction false} WalkConcat(ctx: RouteContext, a: seq<Move>, b: seq<Move>, start: Availability)
    requires 0 < ctx.ii
    ensures Walk(ctx, a + b, start) ==
            (if Walk(ctx, a, start).None? then None else Walk(ctx, b, Walk(ctx, a, start).value))
    ensures Walk(ctx, a + b, start).Some? ==>
      WalkLinks(ctx, a + b, start) == WalkLinks(ctx, a, start) + WalkLinks(ctx, b, Walk(ctx, a, start).value)
  {
    hide Take, LinksOfMove;
    if b == [] {
      assert a + b == a;
    } else {
      var b' := b[..|b| - 1];
      WalkConcat(ctx, a, b', start);
      assert (a + b)[..|a + b| - 1] == a + b';
    }
  }

  lemma WalkSnoc(ctx: RouteContext, moves: seq<Move>, move: Move, start: Availability)
    requires 0 < ctx.ii && Walk(ctx, moves, start).Some?
    ensures Walk(ctx, moves + [move], start) == Take(ctx, move, Walk(ctx, moves, start).value)
    ensures Walk(ctx, moves + [move], start).Some? ==>
      WalkLinks(ctx, moves + [move], start) ==
      WalkLinks(ctx, moves, start) + LinksOfMove(ctx, move, Walk(ctx, moves, start).value)
  {
    assert (moves + [move])[..|moves|] == moves;
  }

  lemma WalkOne(ctx: RouteContext, move: Move, start: Availability)
    requires 0 < ctx.ii
    ensures Walk(ctx, [move], start) == Take(ctx, move, start)
    ensures Walk(ctx, [move], start).Some? ==> WalkLinks(ctx, [move], start) == LinksOfMove(ctx, move, start)
  {
    assert [move][..0] == [];
    assert Walk(ctx, [], start) == Some(start);
  }

  lemma {:induction false} WalkStep(ctx: RouteContext, moves: seq<Move>, start: Availability)
    requires 0 < ctx.ii && moves != []
    ensures var next := Take(ctx, moves[0], start);
            Walk(ctx, moves, start) == (if next.None? then None else Walk(ctx, moves[1..], next.value))
    ensures Walk(ctx, moves, start).Some? ==>
      WalkLinks(ctx, moves, start) ==
      LinksOfMove(ctx, moves[0], start) + WalkLinks(ctx, moves[1..], Take(ctx, moves[0], start).value)
  {
    assert [moves[0]] + moves[1..] == moves;
    WalkOne(ctx, moves[0], start);
    WalkConcat(ctx, [moves[0]], moves[1..], start);
  }

  lemma FirstLink(ctx: RouteContext, moves: seq<Move>, start: Availability)
    requires 0 < ctx.ii && moves != [] && moves[0].Hop? && Walk(ctx, moves, start).Some?
    ensures ctx.LinkAt(start.tile, moves[0].direction, start.elapsed) in WalkLinks(ctx, moves, start)
  {
    hide Advance, Walk, WalkLinks;
    WalkStep(ctx, moves, start);
    assert LinksOfMove(ctx, moves[0], start)[0] == ctx.LinkAt(start.tile, moves[0].direction, start.elapsed);
  }

  lemma NoMoves(ctx: RouteContext, start: Availability)
    requires 0 < ctx.ii
    ensures Walk(ctx, [], start) == Some(start) && WalkLinks(ctx, [], start) == []
  {
  }

  // Every action of a transport takes at least a cycle.
  lemma {:induction false} FollowTakesTime(ctx: RouteContext, actions: seq<TransportAction>, start: Availability)
    requires 0 < ctx.target.hopLatency && Follow(ctx, actions, start).Some?
    ensures Follow(ctx, actions, start).value.elapsed >= start.elapsed + |actions|
  {
    if actions != [] {
      FollowTakesTime(ctx, actions[..|actions| - 1], start);
    }
  }

  // ----- Plans as walks -----

  function Waits(n: nat): (moves: seq<Move>)
    ensures |moves| == n
  {
    if n == 0 then [] else Waits(n - 1) + [Wait]
  }

  lemma {:induction false} WaitsWalk(ctx: RouteContext, n: nat, start: Availability)
    requires 0 < ctx.ii
    ensures Walk(ctx, Waits(n), start) == Some(Availability(start.tile, start.elapsed + n))
    ensures WalkLinks(ctx, Waits(n), start) == []
  {
    hide Walk, WalkLinks, Advance;
    if n == 0 {
      NoMoves(ctx, start);
    } else {
      WaitsWalk(ctx, n - 1, start);
      WalkSnoc(ctx, Waits(n - 1), Wait, start);
    }
  }

  // A plan spelled out cycle by cycle.
  function UnrollAction(action: TransportAction): seq<Move> {
    match action
    case LinkStep(_, _, direction, _) => [Hop(direction)]
    case VirtualHold(_, _, capture, release) => if capture <= release then Waits(release - capture) else []
  }

  function Unroll(actions: seq<TransportAction>): seq<Move> {
    if actions == [] then []
    else Unroll(actions[..|actions| - 1]) + UnrollAction(actions[|actions| - 1])
  }

  lemma UnrollActionWalks(ctx: RouteContext, action: TransportAction, here: Availability)
    requires 0 < ctx.ii && Perform(ctx, action, here).Some?
    ensures Walk(ctx, UnrollAction(action), here) == Perform(ctx, action, here)
    ensures WalkLinks(ctx, UnrollAction(action), here) ==
            (if action.LinkStep? then [ctx.LinkAt(action.source, action.direction, action.elapsed)] else [])
  {
    hide Walk, WalkLinks, Waits, Advance;
    match action
    case LinkStep(_, _, direction, _) => WalkOne(ctx, Hop(direction), here);
    case VirtualHold(_, _, capture, release) => WaitsWalk(ctx, release - capture, here);
  }

  // Unrolling keeps destination, timing and links.
  lemma {:induction false} UnrollWalks(ctx: RouteContext, actions: seq<TransportAction>, start: Availability)
    requires 0 < ctx.ii && Follow(ctx, actions, start).Some?
    ensures Walk(ctx, Unroll(actions), start) == Follow(ctx, actions, start)
    ensures WalkLinks(ctx, Unroll(actions), start) == LinksOf(ctx, actions)
  {
    if actions != [] {
      var before, last := actions[..|actions| - 1], actions[|actions| - 1];
      UnrollWalks(ctx, before, start);
      UnrollActionWalks(ctx, last, Follow(ctx, before, start).value);
      WalkConcat(ctx, Unroll(before), UnrollAction(last), start);
    }
  }

  // The plan action for one more move: a wait right after a hold prolongs that hold.
  function Extend(ctx: RouteContext, actions: seq<TransportAction>, here: Availability, move: Move)
    : seq<TransportAction>
    requires here.elapsed <= U32_MAX
    requires move.Wait? ==> here.elapsed < U32_MAX
  {
    match move
    case Hop(direction) => actions + [LinkStep(ctx.domain, here.tile, direction, here.elapsed)]
    case Wait =>
      var n := |actions|;
      if actions != [] && actions[n - 1].VirtualHold? && actions[n - 1].domain == ctx.domain &&
         actions[n - 1].tile == here.tile && actions[n - 1].release == here.elapsed
      then actions[..n - 1] + [VirtualHold(ctx.domain, here.tile, actions[n - 1].capture, here.elapsed + 1)]
      else actions + [VirtualHold(ctx.domain, here.tile, here.elapsed, here.elapsed + 1)]
  }

  lemma ExtendFollows(ctx: RouteContext, actions: seq<TransportAction>, start: Availability,
                      here: Availability, move: Move)
    requires 0 < ctx.ii
    requires here.elapsed <= U32_MAX
    requires move.Wait? ==> here.elapsed < U32_MAX
    requires Follow(ctx, actions, start) == Some(here) && Take(ctx, move, here).Some?
    ensures Extend(ctx, actions, here, move) != []
    ensures Follow(ctx, Extend(ctx, actions, here, move), start) == Take(ctx, move, here)
    ensures LinksOf(ctx, Extend(ctx, actions, here, move)) == LinksOf(ctx, actions) + LinksOfMove(ctx, move, here)
  {
    var actions' := Extend(ctx, actions, here, move);
    var n := |actions|;
    hide Advance, RouteContext.Onward, Follow, LinksOf, RouteContext.LinkAt;
    if |actions'| == n {
      assert actions == actions[..n - 1] + [actions[n - 1]];
      LastFollows(ctx, actions[..n - 1], actions[n - 1], start);
      LastFollows(ctx, actions[..n - 1], actions'[n - 1], start);
    } else {
      LastFollows(ctx, actions, actions'[n], start);
    }
  }

  lemma LastFollows(ctx: RouteContext, actions: seq<TransportAction>, last: TransportAction, start: Availability)
    requires 0 < ctx.ii
    ensures var here := Follow(ctx, actions, start);
      Follow(ctx, actions + [last], start) == if here.None? then None else Perform(ctx, last, here.value)
    ensures LinksOf(ctx, actions + [last]) ==
      LinksOf(ctx, actions) + (if last.LinkStep? then [ctx.LinkAt(last.source, last.direction, last.elapsed)] else [])
  {
    hide Perform, RouteContext.LinkAt;
    assert (actions + [last])[..|actions|] == actions;
  }

  // ----- Removing detours -----

  // From `start`, never entering a state of `visited`, nor any state twice.
  predicate Simple(ctx: RouteContext, moves: seq<Move>, start: Availability, visited: set<RouteState>)
    requires 0 < ctx.ii
    decreases |moves|
  {
    moves == [] ||
    (var next := Take(ctx, moves[0], start);
     next.Some? &&
     var state := StateAt(ctx, next.value);
     state !in visited && Simple(ctx, moves[1..], next.value, visited + {state}))
  }

  // `moves` never enters a state of `avoided`.
  predicate Avoids(ctx: RouteContext, moves: seq<Move>, start: Availability, avoided: set<RouteState>)
    requires 0 < ctx.ii
    decreases |moves|
  {
    moves == [] ||
    (var next := Take(ctx, moves[0], start);
     next.Some? && StateAt(ctx, next.value) !in avoided && Avoids(ctx, moves[1..], next.value, avoided))
  }

  lemma {:induction false} SimpleMore(ctx: RouteContext, moves: seq<Move>, start: Availability,
                                      visited: set<RouteState>, more: set<RouteState>)
    requires 0 < ctx.ii
    requires Simple(ctx, moves, start, visited) && Avoids(ctx, moves, start, more)
    ensures Simple(ctx, moves, start, visited + more)
    decreases |moves|
  {
    if moves != [] {
      var next := Take(ctx, moves[0], start).value;
      var state := StateAt(ctx, next);
      SimpleMore(ctx, moves[1..], next, visited + {state}, more);
      assert visited + {state} + more == visited + more + {state};
    }
  }

  // Starting a whole number of periods earlier changes neither states nor link-slots.
  lemma {:induction false} ShiftEarlier(ctx: RouteContext, moves: seq<Move>, late: Availability, early: Availability)
    requires 0 < ctx.ii
    requires Walk(ctx, moves, late).Some?
    requires StateAt(ctx, late) == StateAt(ctx, early) && early.elapsed <= late.elapsed
    ensures Walk(ctx, moves, early).Some?
    ensures Walk(ctx, moves, early).value.tile == Walk(ctx, moves, late).value.tile
    ensures Walk(ctx, moves, early).value.elapsed - early.elapsed == Walk(ctx, moves, late).value.elapsed - late.elapsed
    ensures StateAt(ctx, Walk(ctx, moves, early).value) == StateAt(ctx, Walk(ctx, moves, late).value)
    ensures WalkLinks(ctx, moves, early) == WalkLinks(ctx, moves, late)
  {
    if moves != [] {
      var before := moves[..|moves| - 1];
      ShiftEarlier(ctx, before, late, early);
      var l, e := Walk(ctx, before, late).value, Walk(ctx, before, early).value;
      SlotsAdvance(ctx, l.elapsed, e.elapsed, 1);
      SlotsAdvance(ctx, l.elapsed, e.elapsed, ctx.target.hopLatency);
    }
  }

  lemma SlotsAdvance(ctx: RouteContext, a: nat, b: nat, delta: nat)
    requires 0 < ctx.ii && ctx.SlotAt(a) == ctx.SlotAt(b)
    ensures ctx.SlotAt(a + delta) == ctx.SlotAt(b + delta)
  {
    AdvanceCompose(ctx.issueSlot, a, delta, ctx.ii);
    AdvanceCompose(ctx.issueSlot, b, delta, ctx.ii);
  }

  // The last return to the home state: everything before it can be dropped.
  lemma {:induction false} DropReturns(ctx: RouteContext, moves: seq<Move>, start: Availability, home: RouteState)
    returns (dropped: seq<Move>, kept: seq<Move>)
    requires 0 < ctx.ii && Walk(ctx, moves, start).Some?
    ensures moves == dropped + kept && Walk(ctx, dropped, start).Some?
    ensures dropped != [] ==> StateAt(ctx, Walk(ctx, dropped, start).value) == home
    ensures Avoids(ctx, kept, Walk(ctx, dropped, start).value, {home})
    decreases |moves|
  {
    dropped, kept := [], [];
    if moves != [] {
      WalkStep(ctx, moves, start);
      var next := Take(ctx, moves[0], start).value;
      var skipped, rest := DropReturns(ctx, moves[1..], next, home);
      if skipped == [] && StateAt(ctx, next) != home {
        assert rest == moves[1..];
        kept := moves;
      } else {
        dropped, kept := [moves[0]] + skipped, rest;
        assert dropped[1..] == skipped;
        WalkStep(ctx, dropped, start);
        assert Walk(ctx, dropped, start) == Walk(ctx, skipped, next);
      }
    }
  }

  lemma {:induction false} AvoidsInherited(ctx: RouteContext, a: seq<Move>, b: seq<Move>,
                                           start: Availability, avoided: set<RouteState>)
    requires 0 < ctx.ii && Avoids(ctx, a + b, start, avoided)
    ensures Walk(ctx, a, start).Some?
    ensures Avoids(ctx, b, Walk(ctx, a, start).value, avoided)
    decreases |a|
  {
    if a == [] {
      assert a + b == b;
    } else {
      WalkStep(ctx, a, start);
      assert (a + b)[1..] == a[1..] + b;
      AvoidsInherited(ctx, a[1..], b, Take(ctx, a[0], start).value, avoided);
    }
  }

  lemma {:induction false} AvoidsShift(ctx: RouteContext, moves: seq<Move>, late: Availability, early: Availability,
                                       avoided: set<RouteState>)
    requires 0 < ctx.ii && Avoids(ctx, moves, late, avoided)
    requires StateAt(ctx, late) == StateAt(ctx, early)
    ensures Avoids(ctx, moves, early, avoided)
    decreases |moves|
  {
    if moves != [] {
      SlotsAdvance(ctx, late.elapsed, early.elapsed, 1);
      SlotsAdvance(ctx, late.elapsed, early.elapsed, ctx.target.hopLatency);
      AvoidsShift(ctx, moves[1..], Take(ctx, moves[0], late).value, Take(ctx, moves[0], early).value, avoided);
    }
  }

  /** Every walk has a detour-free counterpart: same destination state, no later, links among the original's. */
  lemma {:induction false} RemoveDetours(ctx: RouteContext, moves: seq<Move>, start: Availability,
                                         avoided: set<RouteState>)
    returns (direct: seq<Move>)
    requires 0 < ctx.ii && Walk(ctx, moves, start).Some?
    requires Avoids(ctx, moves, start, avoided)
    ensures Walk(ctx, direct, start).Some?
    ensures Simple(ctx, direct, start, {StateAt(ctx, start)})
    ensures Avoids(ctx, direct, start, avoided)
    ensures StateAt(ctx, Walk(ctx, direct, start).value) == StateAt(ctx, Walk(ctx, moves, start).value)
    ensures Walk(ctx, direct, start).value.elapsed <= Walk(ctx, moves, start).value.elapsed
    ensures forall r :: r in WalkLinks(ctx, direct, start) ==> r in WalkLinks(ctx, moves, start)
    decreases |moves|
  {
    var home := StateAt(ctx, start);
    var dropped, kept := DropReturns(ctx, moves, start, home);
    var late := Walk(ctx, dropped, start).value;
    WalkConcat(ctx, dropped, kept, start);
    AvoidsInherited(ctx, dropped, kept, start, avoided);
    WalkMonotone(ctx, dropped, start);
    ShiftEarlier(ctx, kept, late, start);
    AvoidsShift(ctx, kept, late, start, {home});
    AvoidsShift(ctx, kept, late, start, avoided);
    if kept == [] {
      direct := [];
      return;
    }
    var next := Take(ctx, kept[0], start).value;
    var state := StateAt(ctx, next);
    WalkStep(ctx, kept, start);
    AvoidsUnion(ctx, kept[1..], next, {home}, avoided);
    var rest := RemoveDetours(ctx, kept[1..], next, {home} + avoided);
    direct := [kept[0]] + rest;
    assert direct[1..] == rest;
    WalkStep(ctx, direct, start);
    AvoidsSubset(ctx, rest, next, {home} + avoided, {home});
    AvoidsSubset(ctx, rest, next, {home} + avoided, avoided);
    SimpleMore(ctx, rest, next, {state}, {home});
    assert {state} + {home} == {home} + {state};
  }

  lemma {:induction false} AvoidsNothing(ctx: RouteContext, moves: seq<Move>, start: Availability)
    requires 0 < ctx.ii && Walk(ctx, moves, start).Some?
    ensures Avoids(ctx, moves, start, {})
    decreases |moves|
  {
    if moves != [] {
      WalkStep(ctx, moves, start);
      AvoidsNothing(ctx, moves[1..], Take(ctx, moves[0], start).value);
    }
  }

  lemma WalkMonotone(ctx: RouteContext, moves: seq<Move>, start: Availability)
    requires Walk(ctx, moves, start).Some?
    ensures start.elapsed <= Walk(ctx, moves, start).value.elapsed
  {
  }

  lemma AvoidsUnion(ctx: RouteContext, moves: seq<Move>, start: Availability, a: set<RouteState>, b: set<RouteState>)
    requires 0 < ctx.ii && Avoids(ctx, moves, start, a) && Avoids(ctx, moves, start, b)
    ensures Avoids(ctx, moves, start, a + b)
    decreases |moves|
  {
  }

  lemma AvoidsSubset(ctx: RouteContext, moves: seq<Move>, start: Availability, a: set<RouteState>, b: set<RouteState>)
    requires 0 < ctx.ii && Avoids(ctx, moves, start, a) && b <= a
    ensures Avoids(ctx, moves, start, b)
    decreases |moves|
  {
  }
}
