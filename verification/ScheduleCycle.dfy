// One cycle of the schedule checker: memory ports, register commits and links.

module ScheduleCycle {
  import opened Wrappers
  import opened Mesh
  import opened Tile
  import opened GoldenArray
  import opened GoldenRuns
  import opened ScheduleTile
  import opened ScheduleCheck

  // ----- Memory ports -----

  // Addresses that a store shares with another request.
  method ConflictingAddresses(rows: nat, cols: nat, requests: map<TileCoord, Option<CheckedRequest>>, cycle: nat)
    returns (addresses: set<nat>, found: seq<ScheduleDiagnostic>)
    requires forall t :: t in requests <==> InArray(t, rows, cols)
    ensures |found| == 0 <==> AllCompatible(requests)
    ensures |found| == 0 ==> addresses == {}
  {
    hide AllCompatible, AnyStore, Grouped;
    var groups := GroupByAddress(rows, cols, requests);
    GroupsDecide(requests, groups);
    addresses, found := {}, [];
    var rest := groups.Keys;
    while rest != {}
      invariant rest <= groups.Keys
      invariant |found| == 0 <==> forall a :: a in groups && a !in rest ==> !(|groups[a]| > 1 && AnyStore(requests, groups[a]))
      invariant |found| == 0 ==> addresses == {}
    {
      var a :| a in rest;
      rest := rest - {a};
      if |groups[a]| > 1 && AnyStore(requests, groups[a]) {
        var t :| t in groups[a];
        addresses := addresses + {a};
        found := found + [ScheduleDiagnostic(StoreConflict, Some(cycle), Some(t))];
      }
    }
  }

  // Loads of addresses nobody fights over are answered later, at most one per tile and cycle.
  method IssueChecked(waiting: map<TileCoord, map<nat, Option<Word>>>, requests: map<TileCoord, Option<CheckedRequest>>,
                      scratch: seq<Option<Word>>, cycle: nat, latency: nat, conflicting: set<nat>)
    returns (pending: map<TileCoord, map<nat, Option<Word>>>, found: seq<ScheduleDiagnostic>)
    requires forall t :: t in waiting ==> t in requests && cycle !in waiting[t]
    requires forall t :: t in requests && requests[t].Some? ==> requests[t].value.address < |scratch|
    ensures pending.Keys == waiting.Keys
    ensures conflicting == {} ==>
      (|found| == 0 <==> forall t :: t in waiting ==> ResponseSingle(requests[t], waiting[t], cycle, latency))
    ensures conflicting == {} && |found| == 0 ==>
      forall t :: t in waiting ==> pending[t] == NextPending(waiting[t], cycle, latency, requests[t], scratch)
  {
    hide ResponseSingle;
    pending, found := waiting, [];
    var coords := waiting.Keys;
    while coords != {}
      invariant coords <= waiting.Keys && pending.Keys == waiting.Keys
      invariant forall t :: t in coords ==> pending[t] == waiting[t]
      invariant conflicting == {} ==>
        (|found| == 0 <==>
           forall t :: t in waiting && t !in coords ==> ResponseSingle(requests[t], waiting[t], cycle, latency))
      invariant conflicting == {} && |found| == 0 ==>
        forall t :: t in waiting && t !in coords ==>
          pending[t] == NextPending(waiting[t], cycle, latency, requests[t], scratch)
    {
      var t :| t in coords;
      coords := coords - {t};
      ResponseMeans(requests[t], waiting[t], cycle, latency);
      assert waiting[t] - {cycle} == waiting[t];
      if requests[t].Some? && requests[t].value.LoadRequest? && requests[t].value.address !in conflicting {
        var ready: nat := cycle + latency;
        if ready in waiting[t] {
          found := found + [ScheduleDiagnostic(LoadResponse, Some(cycle), Some(t))];
        } else {
          var answered: map<nat, Option<Word>> := waiting[t][ready := scratch[requests[t].value.address]];
          pending := pending[t := answered];
        }
      }
    }
  }

  method StoreChecked(rows: nat, cols: nat, requests: map<TileCoord, Option<CheckedRequest>>, scratch: seq<Option<Word>>,
                      conflicting: set<nat>)
    returns (scratch': seq<Option<Word>>)
    requires forall t :: t in requests <==> InArray(t, rows, cols)
    requires forall t :: t in requests && requests[t].Some? ==> requests[t].value.address < |scratch|
    ensures |scratch'| == |scratch|
    ensures conflicting == {} && AllCompatible(requests) ==> scratch' == NextScratch(requests, scratch)
  {
    hide AllCompatible, NextScratch;
    ghost var order: seq<TileCoord> := [];
    scratch' := scratch;
    for row := 0 to rows
      invariant |scratch'| == |scratch|
      invariant conflicting == {} ==> scratch' == ApplyStores(order, requests, scratch)
      invariant forall t :: InArray(t, rows, cols) && t.row < row ==> t in order
    {
      for col := 0 to cols
        invariant |scratch'| == |scratch|
        invariant conflicting == {} ==> scratch' == ApplyStores(order, requests, scratch)
        invariant forall t :: InArray(t, rows, cols) && (t.row < row || (t.row == row && t.col < col)) ==> t in order
      {
        var t := TileCoord(row, col);
        assert (order + [t])[..|order|] == order;
        if requests[t].Some? && requests[t].value.StoreRequest? && requests[t].value.address !in conflicting {
          scratch' := scratch'[requests[t].value.address := requests[t].value.data];
        }
        order := order + [t];
      }
    }
    if conflicting == {} && AllCompatible(requests) {
      OrderIrrelevant(order, requests, scratch);
    }
  }

  // ----- Links -----

  // One side emits. A second driver of the same input would be a conflict; a mesh link has only one.
  method EmitLink<V(!new)>(rows: nat, cols: nat, outs: map<TileCoord, map<Direction, V>>, from: TileCoord,
                           direction: Direction, next: map<TileCoord, map<Direction, V>>,
                           ghost done: set<(TileCoord, Direction)>, cycle: nat)
    returns (next': map<TileCoord, map<Direction, V>>, found: seq<ScheduleDiagnostic>)
    requires from in outs && (from, direction) !in done && Delivered(rows, cols, outs, done, next)
    ensures |found| == 0 && Delivered(rows, cols, outs, done + {(from, direction)}, next')
  {
    next', found := next, [];
    var to := Neighbor(from, direction, rows, cols);
    NeighborIsSymmetric(from, direction, rows, cols);
    OppositeTwice(direction);
    if direction in outs[from] && to.Some? {
      if Opposite(direction) in next[to.value] {
        found := [ScheduleDiagnostic(LinkConflict, Some(cycle), Some(from))];
      } else {
        next' := next[to.value := next[to.value][Opposite(direction) := outs[from][direction]]];
      }
    }
    SideDelivered(rows, cols, outs, from, direction, next, next', done);
  }

  method EmitTile<V(!new)>(rows: nat, cols: nat, outs: map<TileCoord, map<Direction, V>>, from: TileCoord,
                           next: map<TileCoord, map<Direction, V>>, ghost done: set<(TileCoord, Direction)>, cycle: nat)
    returns (next': map<TileCoord, map<Direction, V>>, found: seq<ScheduleDiagnostic>)
    requires from in outs && (forall d: Direction :: (from, d) !in done) && Delivered(rows, cols, outs, done, next)
    ensures |found| == 0 &&
      Delivered(rows, cols, outs, done + {(from, North)} + {(from, South)} + {(from, East)} + {(from, West)}, next')
  {
    hide Delivered;
    var north, south, east, west;
    next', north := EmitLink(rows, cols, outs, from, North, next, done, cycle);
    next', south := EmitLink(rows, cols, outs, from, South, next', done + {(from, North)}, cycle);
    next', east := EmitLink(rows, cols, outs, from, East, next', done + {(from, North)} + {(from, South)}, cycle);
    next', west :=
      EmitLink(rows, cols, outs, from, West, next', done + {(from, North)} + {(from, South)} + {(from, East)}, cycle);
    found := north + south + east + west;
  }

  ghost function AllArrivals<V>(rows: nat, cols: nat, outs: map<TileCoord, map<Direction, V>>)
    : map<TileCoord, map<Direction, V>>
  {
    map t | t in outs :: Arrivals(rows, cols, outs, t)
  }

  lemma AllArrivalsAt<V>(rows: nat, cols: nat, outs: map<TileCoord, map<Direction, V>>)
    ensures AllArrivals(rows, cols, outs).Keys == outs.Keys
    ensures forall t :: t in outs ==> AllArrivals(rows, cols, outs)[t] == Arrivals(rows, cols, outs, t)
  {
    hide Arrivals;
  }

  method EmitLinks<V(!new)>(rows: nat, cols: nat, outs: map<TileCoord, map<Direction, V>>, cycle: nat)
    returns (next: map<TileCoord, map<Direction, V>>, found: seq<ScheduleDiagnostic>)
    requires forall t :: t in outs <==> InArray(t, rows, cols)
    ensures |found| == 0 && next == AllArrivals(rows, cols, outs)
  {
    hide Delivered, Arrivals, Neighbor;
    next, found := map t | t in outs :: map[], [];
    ghost var done: set<(TileCoord, Direction)> := {};
    NothingDelivered(rows, cols, outs, next);
    for row := 0 to rows
      invariant |found| == 0 && Delivered(rows, cols, outs, done, next)
      invariant forall t, d: Direction :: InArray(t, rows, cols) ==> ((t, d) in done <==> t.row < row)
    {
      for col := 0 to cols
        invariant |found| == 0 && Delivered(rows, cols, outs, done, next)
        invariant forall t, d: Direction :: InArray(t, rows, cols) ==>
          ((t, d) in done <==> t.row < row || (t.row == row && t.col < col))
      {
        var from := TileCoord(row, col);
        var more;
        next, more := EmitTile(rows, cols, outs, from, next, done, cycle);
        SidesDone(done, from);
        done := done + {(from, North)} + {(from, South)} + {(from, East)} + {(from, West)};
        found := found + more;
      }
    }
    AllDelivered(rows, cols, outs, done, next);
  }

  // ----- Registers -----

  function CommitChecked(c: CheckedTile, effects: CheckedEffects): CheckedTile {
    CheckedTile(
      seq(|c.dataValid|, i requires 0 <= i < |c.dataValid| => i in effects.dataWrites || c.dataValid[i]),
      seq(|c.dataValues|, i requires 0 <= i < |c.dataValues| =>
        if i in effects.dataWrites then effects.dataWrites[i] else c.dataValues[i]),
      seq(|c.predValid|, i requires 0 <= i < |c.predValid| => i in effects.predWrites || c.predValid[i]),
      seq(|c.predValues|, i requires 0 <= i < |c.predValues| =>
        if i in effects.predWrites then effects.predWrites[i] else c.predValues[i]),
      c.constValues)
  }

  // ----- Knowing the next state in full -----

  lemma LiftCommitted(tile: TileState, effects: TileEffects)
    requires |tile.dataRf| == |tile.dataValid| && |tile.predRf| == |tile.predValid|
    ensures CommitChecked(LiftTile(tile), LiftEffects(effects)) == LiftTile(Committed(tile, effects))
  {
    hide LiftRequest;
    var known, next := CommitChecked(LiftTile(tile), LiftEffects(effects)), LiftTile(Committed(tile, effects));
    assert known.dataValid == next.dataValid;
    assert known.dataValues == next.dataValues;
    assert known.predValid == next.predValid;
    assert known.predValues == next.predValues;
  }

  ghost predicate SameRequests(known: map<TileCoord, Option<CheckedRequest>>, requests: map<TileCoord, Option<Request>>) {
    known.Keys == requests.Keys && forall t :: t in requests ==> known[t] == LiftRequest(requests[t])
  }

  lemma LiftCompatible(known: map<TileCoord, Option<CheckedRequest>>, requests: map<TileCoord, Option<Request>>)
    requires SameRequests(known, requests)
    ensures AllCompatible(known) <==> AllCompatible(requests)
  {
    forall t, u | t in requests && u in requests
      ensures Compatible(known[t], known[u]) <==> Compatible(requests[t], requests[u])
    {
    }
  }

  lemma LiftStores(request: Option<Request>, address: nat)
    ensures Stores(LiftRequest(request), address) <==> Stores(request, address)
    ensures Stores(request, address) ==> LiftRequest(request).value.data == Some(request.value.data)
  {
  }

  lemma LiftScratch(known: map<TileCoord, Option<CheckedRequest>>, requests: map<TileCoord, Option<Request>>, scratch: seq<Word>)
    requires SameRequests(known, requests) && AllCompatible(requests)
    ensures NextScratch(known, LiftSeq(scratch)) == LiftSeq(NextScratch(requests, scratch))
  {
    hide LiftRequest;
    forall a | 0 <= a < |scratch|
      ensures StoredWord(known, LiftSeq(scratch), a) == Some(StoredWord(requests, scratch, a))
    {
      forall t | t in requests
        ensures Stores(known[t], a) <==> Stores(requests[t], a)
        ensures Stores(requests[t], a) ==> known[t].value.data == Some(requests[t].value.data)
      {
        LiftStores(requests[t], a);
      }
      forall t, u | t in requests && u in requests && t != u
        ensures !(Stores(requests[t], a) && Stores(requests[u], a))
      {
        assert Compatible(requests[t], requests[u]);
      }
    }
  }

  lemma LiftPending(pending: map<nat, Word>, cycle: nat, latency: nat, request: Option<Request>, scratch: seq<Word>)
    ensures NextPending(LiftMap(pending) - {cycle}, cycle, latency, LiftRequest(request), LiftSeq(scratch)) ==
            LiftMap(NextPending(pending, cycle, latency, request, scratch))
    ensures ResponseSingle(LiftRequest(request), LiftMap(pending) - {cycle}, cycle, latency) <==>
            ResponseSingle(request, pending, cycle, latency)
  {
    var known := NextPending(LiftMap(pending) - {cycle}, cycle, latency, LiftRequest(request), LiftSeq(scratch));
    var next := LiftMap(NextPending(pending, cycle, latency, request, scratch));
    assert known.Keys == next.Keys;
    forall k | k in known
      ensures known[k] == next[k]
    {
    }
  }

  lemma LiftArrivals<V>(rows: nat, cols: nat, known: map<TileCoord, map<Direction, Option<V>>>,
                        outs: map<TileCoord, map<Direction, V>>, t: TileCoord)
    requires known.Keys == outs.Keys && forall u :: u in outs ==> known[u] == LiftMap(outs[u])
    ensures Arrivals(rows, cols, known, t) == LiftMap(Arrivals(rows, cols, outs, t))
  {
    hide Neighbor;
  }

  // What the tiles' effects give, known in full.
  ghost predicate Lifted(known: map<TileCoord, CheckedEffects>, effects: map<TileCoord, TileEffects>) {
    known.Keys == effects.Keys && forall t :: t in effects ==> known[t] == LiftEffects(effects[t])
  }

  lemma EffectsLifted(s: ArrayState, controls: Controls)
    ensures Lifted(LiftedEffects(s, controls), AllEffects(s, controls)) && AllEffects(s, controls).Keys == s.tiles.Keys
  {
    LiftedAt(s, controls);
    hide LiftedEffects, LiftEffects, EffectsAt;
  }

  lemma RequestsLifted(known: map<TileCoord, CheckedEffects>, effects: map<TileCoord, TileEffects>)
    requires Lifted(known, effects)
    ensures SameRequests(Requests(known), Requests(effects))
  {
    hide LiftMap, LiftRequest;
  }

  lemma DataLifted(known: map<TileCoord, CheckedEffects>, effects: map<TileCoord, TileEffects>)
    requires Lifted(known, effects)
    ensures DataOuts(known).Keys == DataOuts(effects).Keys == effects.Keys
    ensures forall t :: t in effects ==> DataOuts(known)[t] == LiftMap(DataOuts(effects)[t])
  {
    hide LiftMap, LiftRequest;
  }

  lemma PredsLifted(known: map<TileCoord, CheckedEffects>, effects: map<TileCoord, TileEffects>)
    requires Lifted(known, effects)
    ensures PredOuts(known).Keys == PredOuts(effects).Keys == effects.Keys
    ensures forall t :: t in effects ==> PredOuts(known)[t] == LiftMap(PredOuts(effects)[t])
  {
    hide LiftMap, LiftRequest;
  }

  lemma SizedTile(cfg: ArrayConfig, s: ArrayState, t: TileCoord)
    requires s.Sized(cfg) && t in s.tiles
    ensures |s.tiles[t].dataRf| == |s.tiles[t].dataValid| && |s.tiles[t].predRf| == |s.tiles[t].predValid|
  {
  }

  lemma LiftTilesAt(tiles: map<TileCoord, TileState>)
    ensures LiftTiles(tiles).Keys == tiles.Keys
    ensures forall t :: t in tiles ==> LiftTiles(tiles)[t] == LiftTile(tiles[t])
  {
    hide LiftTile;
  }

  lemma LiftMapsAt<T, K, V>(m: map<T, map<K, V>>)
    ensures LiftMaps(m).Keys == m.Keys
    ensures forall t :: t in m ==> LiftMaps(m)[t] == LiftMap(m[t])
  {
    hide LiftMap;
  }

  lemma FollowsParts(cfg: ArrayConfig, c: CheckedArray, cycle: nat, s: ArrayState)
    requires Follows(cfg, c, cycle, s)
    ensures s.Sized(cfg) && s.cycle == cycle
    ensures c.tiles == LiftTiles(s.tiles) && c.scratch == LiftSeq(s.scratch) && c.pending == LiftMaps(s.pending)
  {
    hide LiftTiles, LiftSeq, LiftMaps, ArrayState.Sized;
  }

  lemma TilesKnown(cfg: ArrayConfig, c: CheckedArray, controls: Controls, cycle: nat, s: ArrayState,
                   tiles: map<TileCoord, CheckedTile>)
    requires Follows(cfg, c, cycle, s) && tiles.Keys == c.tiles.Keys && LiftedEffects(s, controls).Keys == c.tiles.Keys
    requires forall t :: t in tiles ==> tiles[t] == CommitChecked(c.tiles[t], LiftedEffects(s, controls)[t])
    ensures tiles == LiftTiles(NextState(cfg, s, controls).tiles)
  {
    hide *;
    var next := NextState(cfg, s, controls);
    FollowsParts(cfg, c, cycle, s);
    NextSized(cfg, s, controls);
    SizedKeys(cfg, s);
    SizedKeys(cfg, next);
    LiftTilesAt(s.tiles);
    LiftTilesAt(next.tiles);
    LiftedAt(s, controls);
    forall t | t in tiles
      ensures tiles[t] == LiftTiles(next.tiles)[t]
    {
      SizedTile(cfg, s, t);
      NextTile(cfg, s, controls, t);
      LiftCommitted(s.tiles[t], EffectsAt(s, controls, t));
    }
    SameMap(tiles, LiftTiles(next.tiles));
  }

  lemma LinksKnown<V>(rows: nat, cols: nat, known: map<TileCoord, map<Direction, Option<V>>>,
                      outs: map<TileCoord, map<Direction, V>>, arrived: map<TileCoord, map<Direction, Option<V>>>,
                      next: map<TileCoord, map<Direction, V>>)
    requires known.Keys == outs.Keys == arrived.Keys == next.Keys
    requires forall u :: u in outs ==> known[u] == LiftMap(outs[u])
    requires forall t :: t in outs ==> arrived[t] == Arrivals(rows, cols, known, t)
    requires forall t :: t in outs ==> next[t] == Arrivals(rows, cols, outs, t)
    ensures arrived == LiftMaps(next)
  {
    hide Arrivals, LiftMap, LiftMaps;
    LiftMapsAt(next);
    forall t | t in outs
      ensures arrived[t] == LiftMaps(next)[t]
    {
      LiftArrivals(rows, cols, known, outs, t);
    }
    SameMap(arrived, LiftMaps(next));
  }

  lemma PendingKnown(cfg: ArrayConfig, c: CheckedArray, controls: Controls, cycle: nat, s: ArrayState,
                     known: map<TileCoord, Option<CheckedRequest>>, pending: map<TileCoord, map<nat, Option<Word>>>)
    requires Follows(cfg, c, cycle, s) && s.tiles.Keys <= known.Keys && pending.Keys == c.pending.Keys
    requires forall t :: t in s.tiles ==> known[t] == LiftRequest(RequestAt(s, controls, t))
    requires forall t :: t in pending && t in known ==>
      pending[t] == NextPending(c.pending[t] - {cycle}, cycle, cfg.loadLatency, known[t], c.scratch)
    ensures pending == LiftMaps(NextState(cfg, s, controls).pending)
  {
    hide *;
    var next := NextState(cfg, s, controls);
    FollowsParts(cfg, c, cycle, s);
    NextSized(cfg, s, controls);
    SizedKeys(cfg, s);
    SizedKeys(cfg, next);
    LiftMapsAt(s.pending);
    LiftMapsAt(next.pending);
    forall t | t in pending
      ensures pending[t] == LiftMaps(next.pending)[t]
    {
      PendingStep(cfg, s, controls, t);
      LiftPending(s.pending[t], cycle, cfg.loadLatency, RequestAt(s, controls, t), s.scratch);
    }
    SameMap(pending, LiftMaps(next.pending));
  }

  lemma DataInNext(cfg: ArrayConfig, s: ArrayState, controls: Controls)
    requires s.Sized(cfg)
    ensures AllArrivals(cfg.rows, cfg.cols, DataOuts(LiftedEffects(s, controls))) == LiftMaps(NextState(cfg, s, controls).dataIn)
  {
    hide *;
    var next, outs := NextState(cfg, s, controls), DataOuts(LiftedEffects(s, controls));
    NextSized(cfg, s, controls);
    SizedKeys(cfg, s);
    SizedKeys(cfg, next);
    EffectsLifted(s, controls);
    DataLifted(LiftedEffects(s, controls), AllEffects(s, controls));
    AllArrivalsAt(cfg.rows, cfg.cols, outs);
    forall t | t in s.tiles
      ensures next.dataIn[t] == Arrivals(cfg.rows, cfg.cols, DataOuts(AllEffects(s, controls)), t)
    {
      NextTile(cfg, s, controls, t);
    }
    LinksKnown(cfg.rows, cfg.cols, outs, DataOuts(AllEffects(s, controls)), AllArrivals(cfg.rows, cfg.cols, outs), next.dataIn);
  }

  lemma PredInNext(cfg: ArrayConfig, s: ArrayState, controls: Controls)
    requires s.Sized(cfg)
    ensures AllArrivals(cfg.rows, cfg.cols, PredOuts(LiftedEffects(s, controls))) == LiftMaps(NextState(cfg, s, controls).predIn)
  {
    hide *;
    var next, outs := NextState(cfg, s, controls), PredOuts(LiftedEffects(s, controls));
    NextSized(cfg, s, controls);
    SizedKeys(cfg, s);
    SizedKeys(cfg, next);
    EffectsLifted(s, controls);
    PredsLifted(LiftedEffects(s, controls), AllEffects(s, controls));
    AllArrivalsAt(cfg.rows, cfg.cols, outs);
    forall t | t in s.tiles
      ensures next.predIn[t] == Arrivals(cfg.rows, cfg.cols, PredOuts(AllEffects(s, controls)), t)
    {
      NextTile(cfg, s, controls, t);
    }
    LinksKnown(cfg.rows, cfg.cols, outs, PredOuts(AllEffects(s, controls)), AllArrivals(cfg.rows, cfg.cols, outs), next.predIn);
  }

  // ----- The cycle -----

  // Responses of this cycle are taken out before anything else happens.
  function Popped(pending: map<TileCoord, map<nat, Option<Word>>>, cycle: nat): map<TileCoord, map<nat, Option<Word>>> {
    map t | t in pending :: pending[t] - {cycle}
  }

  function CommitAll(tiles: map<TileCoord, CheckedTile>, effects: map<TileCoord, CheckedEffects>): map<TileCoord, CheckedTile> {
    map t | t in tiles && t in effects :: CommitChecked(tiles[t], effects[t])
  }

  lemma CommitAllAt(tiles: map<TileCoord, CheckedTile>, effects: map<TileCoord, CheckedEffects>)
    requires tiles.Keys == effects.Keys
    ensures CommitAll(tiles, effects).Keys == tiles.Keys
    ensures forall t :: t in tiles ==> CommitAll(tiles, effects)[t] == CommitChecked(tiles[t], effects[t])
  {
    hide CommitChecked;
  }

  lemma CommitSized(c: CheckedTile, effects: CheckedEffects, dataDepth: nat, predDepth: nat, constDepth: nat)
    requires c.Sized(dataDepth, predDepth, constDepth)
    ensures CommitChecked(c, effects).Sized(dataDepth, predDepth, constDepth)
  {
  }

  lemma StillSized(cfg: ArrayConfig, c: CheckedArray, effects: map<TileCoord, CheckedEffects>, c': CheckedArray)
    requires c.Sized(cfg) && effects.Keys == c.tiles.Keys && c'.tiles == CommitAll(c.tiles, effects)
    requires |c'.scratch| == |c.scratch| && c'.pending.Keys == c.pending.Keys
    requires c'.dataIn.Keys == c'.predIn.Keys == c.tiles.Keys
    ensures c'.Sized(cfg)
  {
    hide CommitAll, CommitChecked, CheckedTile.Sized;
    CommitAllAt(c.tiles, effects);
    forall t | t in c'.tiles
      ensures c'.tiles[t].Sized(cfg.dataDepth, cfg.predDepth, cfg.constDepth)
    {
      CommitSized(c.tiles[t], effects[t], cfg.dataDepth, cfg.predDepth, cfg.constDepth);
    }
  }

  // The memory ports see what the golden array's see.
  lemma RequestsKnown(cfg: ArrayConfig, c: CheckedArray, controls: Controls, cycle: nat, s: ArrayState,
                      known: map<TileCoord, Option<CheckedRequest>>)
    requires Follows(cfg, c, cycle, s) && known == Requests(LiftedEffects(s, controls))
    ensures SameRequests(known, Requests(AllEffects(s, controls))) && Requests(AllEffects(s, controls)).Keys == s.tiles.Keys
    ensures known.Keys == s.tiles.Keys && c.pending.Keys == s.pending.Keys && s.pending.Keys <= s.tiles.Keys
    ensures forall t :: t in s.tiles ==> Requests(AllEffects(s, controls))[t] == RequestAt(s, controls, t)
    ensures forall t :: t in s.tiles ==> known[t] == LiftRequest(RequestAt(s, controls, t))
  {
    hide Follows, Lifted, LiftedEffects, AllEffects, Requests, LiftRequest, RequestAt, ArrayState.Sized;
    FollowsKeys(cfg, c, cycle, s);
    SizedKeys(cfg, s);
    EffectsLifted(s, controls);
    RequestsLifted(LiftedEffects(s, controls), AllEffects(s, controls));
    EffectsMatch(s, controls, AllEffects(s, controls));
  }

  lemma CompatibleKnown(cfg: ArrayConfig, c: CheckedArray, controls: Controls, cycle: nat, s: ArrayState,
                        known: map<TileCoord, Option<CheckedRequest>>)
    requires Follows(cfg, c, cycle, s) && TilesRun(cfg, s, controls) && known == Requests(LiftedEffects(s, controls))
    ensures AllCompatible(known) <==> MemoryLegal(cfg, s, controls)
  {
    hide *;
    FollowsParts(cfg, c, cycle, s);
    RequestsKnown(cfg, c, controls, cycle, s, known);
    LiftCompatible(known, Requests(AllEffects(s, controls)));
    MemoryByRequests(cfg, s, controls, Requests(AllEffects(s, controls)));
  }

  lemma ResponsesKnown(cfg: ArrayConfig, c: CheckedArray, controls: Controls, cycle: nat, s: ArrayState,
                       known: map<TileCoord, Option<CheckedRequest>>)
    requires Follows(cfg, c, cycle, s) && TilesRun(cfg, s, controls) && known == Requests(LiftedEffects(s, controls))
    requires c.pending.Keys <= known.Keys
    ensures StructurallyLegal(cfg, s, controls) <==>
      forall t :: t in c.pending ==> ResponseSingle(known[t], c.pending[t] - {cycle}, cycle, cfg.loadLatency)
  {
    hide *;
    FollowsParts(cfg, c, cycle, s);
    RequestsKnown(cfg, c, controls, cycle, s, known);
    ResponsesByTile(cfg, s, controls);
    LiftMapsAt(s.pending);
    forall t | t in s.pending
      ensures ResponseSingle(known[t], c.pending[t] - {cycle}, cycle, cfg.loadLatency) <==>
              ResponseSingle(RequestAt(s, controls, t), s.pending[t], s.cycle, cfg.loadLatency)
    {
      LiftPending(s.pending[t], cycle, cfg.loadLatency, RequestAt(s, controls, t), s.scratch);
    }
  }

  lemma ScratchKnown(cfg: ArrayConfig, c: CheckedArray, controls: Controls, cycle: nat, s: ArrayState,
                     known: map<TileCoord, Option<CheckedRequest>>)
    requires Follows(cfg, c, cycle, s) && known == Requests(LiftedEffects(s, controls)) && AllCompatible(known)
    ensures NextScratch(known, c.scratch) == LiftSeq(NextState(cfg, s, controls).scratch)
  {
    hide *;
    FollowsParts(cfg, c, cycle, s);
    EffectsLifted(s, controls);
    RequestsLifted(LiftedEffects(s, controls), AllEffects(s, controls));
    LiftCompatible(known, Requests(AllEffects(s, controls)));
    LiftScratch(known, Requests(AllEffects(s, controls)), s.scratch);
    ScratchIs(cfg, s, controls);
  }

  lemma LiftStateParts(s: ArrayState, c: CheckedArray)
    requires c.tiles == LiftTiles(s.tiles) && c.scratch == LiftSeq(s.scratch) && c.pending == LiftMaps(s.pending)
    requires c.dataIn == LiftMaps(s.dataIn) && c.predIn == LiftMaps(s.predIn)
    ensures c == LiftState(s)
  {
    hide LiftTiles, LiftSeq, LiftMaps;
  }

  lemma NextKnown(cfg: ArrayConfig, c: CheckedArray, controls: Controls, cycle: nat, s: ArrayState,
                  known: map<TileCoord, CheckedEffects>, c': CheckedArray)
    requires Follows(cfg, c, cycle, s) && known == LiftedEffects(s, controls)
    requires AllCompatible(Requests(known)) && c.pending.Keys <= Requests(known).Keys && known.Keys == c.tiles.Keys
    requires c'.tiles == CommitAll(c.tiles, known) && c'.scratch == NextScratch(Requests(known), c.scratch)
    requires c'.pending.Keys == c.pending.Keys
    requires forall t :: t in c'.pending ==>
      c'.pending[t] == NextPending(c.pending[t] - {cycle}, cycle, cfg.loadLatency, Requests(known)[t], c.scratch)
    requires c'.dataIn == AllArrivals(cfg.rows, cfg.cols, DataOuts(known))
    requires c'.predIn == AllArrivals(cfg.rows, cfg.cols, PredOuts(known))
    ensures c' == LiftState(NextState(cfg, s, controls))
  {
    hide *;
    FollowsParts(cfg, c, cycle, s);
    RequestsKnown(cfg, c, controls, cycle, s, Requests(known));
    CommitAllAt(c.tiles, known);
    TilesKnown(cfg, c, controls, cycle, s, c'.tiles);
    ScratchKnown(cfg, c, controls, cycle, s, Requests(known));
    PendingKnown(cfg, c, controls, cycle, s, Requests(known), c'.pending);
    DataInNext(cfg, s, controls);
    PredInNext(cfg, s, controls);
    LiftStateParts(NextState(cfg, s, controls), c');
  }

  /** Clean exactly where the golden array steps and the controls are strict, and then the state is known in full again. */
  method CheckCycle(cfg: ArrayConfig, c: CheckedArray, controls: Controls, cycle: nat, ghost s: ArrayState)
    returns (c': CheckedArray, found: seq<ScheduleDiagnostic>)
    requires c.Sized(cfg) && cfg.Admits(controls)
    ensures c'.Sized(cfg)
    ensures Follows(cfg, c, cycle, s) ==>
      (|found| == 0 <==> StructurallyLegal(cfg, s, controls) && MemoryLegal(cfg, s, controls) && AllStrict(cfg, controls))
    ensures Follows(cfg, c, cycle, s) && |found| == 0 ==> c' == LiftState(NextState(cfg, s, controls))
  {
    hide *;
    CheckedOnArray(cfg, c);
    var effects, tileFound := CheckTiles(cfg, c, controls, cycle, s);
    var waiting, requests := Popped(c.pending, cycle), Requests(effects);
    Range(cfg, c, effects, cycle);
    var conflicting, conflicts := ConflictingAddresses(cfg.rows, cfg.cols, requests, cycle);
    var pending, responses := IssueChecked(waiting, requests, c.scratch, cycle, cfg.loadLatency, conflicting);
    var scratch := StoreChecked(cfg.rows, cfg.cols, requests, c.scratch, conflicting);
    var dataIn, dataFound := EmitLinks(cfg.rows, cfg.cols, DataOuts(effects), cycle);
    var predIn, predFound := EmitLinks(cfg.rows, cfg.cols, PredOuts(effects), cycle);
    c' := CheckedArray(CommitAll(c.tiles, effects), scratch, pending, dataIn, predIn);
    found := tileFound + conflicts + responses + dataFound + predFound;
    AllArrivalsAt(cfg.rows, cfg.cols, DataOuts(effects));
    AllArrivalsAt(cfg.rows, cfg.cols, PredOuts(effects));
    StillSized(cfg, c, effects, c');
    if Follows(cfg, c, cycle, s) {
      FollowsParts(cfg, c, cycle, s);
      if |tileFound| == 0 {
        CompatibleKnown(cfg, c, controls, cycle, s, requests);
        ResponsesKnown(cfg, c, controls, cycle, s, requests);
        if |conflicts| == 0 && |responses| == 0 {
          NextKnown(cfg, c, controls, cycle, s, effects, c');
        }
      } else {
        if !TilesRun(cfg, s, controls) {
          NotAllRun(cfg, s, controls);
        }
      }
    }
  }

  lemma Range(cfg: ArrayConfig, c: CheckedArray, effects: map<TileCoord, CheckedEffects>, cycle: nat)
    requires c.Sized(cfg) && effects.Keys == c.tiles.Keys && RequestsInRange(cfg, effects)
    ensures Requests(effects).Keys == DataOuts(effects).Keys == PredOuts(effects).Keys == c.tiles.Keys
    ensures forall t :: t in Requests(effects) && Requests(effects)[t].Some? ==>
      Requests(effects)[t].value.address < |c.scratch|
    ensures Popped(c.pending, cycle).Keys == c.pending.Keys
    ensures forall t :: t in c.pending ==> Popped(c.pending, cycle)[t] == c.pending[t] - {cycle}
    ensures forall t :: t in c.pending ==> t in c.tiles
  {
    CheckedOnArray(cfg, c);
    PoppedAt(c.pending, cycle);
    hide CheckedArray.Sized, Popped;
  }

  lemma PoppedAt(pending: map<TileCoord, map<nat, Option<Word>>>, cycle: nat)
    ensures Popped(pending, cycle).Keys == pending.Keys
    ensures forall t :: t in pending ==> Popped(pending, cycle)[t] == pending[t] - {cycle}
  {
  }
}
