// The array of tiles: registered one-hop links and the shared, delayed scratchpad.

module GoldenArray {
  import opened Wrappers
  import opened Mesh
  import opened Tile
  import opened FunctionUnit
  import opened GoldenTile

  datatype ArrayConfig = ArrayConfig(
    rows: nat,
    cols: nat,
    lsu: set<TileCoord>,
    dataDepth: nat,
    predDepth: nat,
    constDepth: nat,
    scratchDepth: nat,
    loadLatency: nat)
  {
    ghost function Coords(): set<TileCoord> {
      set row, col | 0 <= row < rows && 0 <= col < cols :: TileCoord(row, col)
    }

    ghost predicate Valid() {
      lsu <= Coords()
    }

    // Every control of a program stays within the memories of the tile.
    predicate Admits(controls: map<TileCoord, TileControl>) {
      forall t :: t in controls ==> InDepths(controls[t], dataDepth, predDepth, constDepth)
    }
  }

  datatype ArrayState = ArrayState(
    tiles: map<TileCoord, TileState>,
    scratch: seq<Word>,
    pending: map<TileCoord, map<nat, Word>>,
    dataIn: map<TileCoord, map<Direction, Word>>,
    predIn: map<TileCoord, map<Direction, bool>>,
    cycle: nat)
  {
    ghost predicate Sized(cfg: ArrayConfig) {
      && 0 < cfg.dataDepth && 0 < cfg.predDepth && 0 < cfg.constDepth && cfg.Valid()
      && tiles.Keys == cfg.Coords() && dataIn.Keys == cfg.Coords() && predIn.Keys == cfg.Coords()
      && pending.Keys == cfg.lsu
      && (forall t :: t in tiles ==> tiles[t].Sized(cfg.dataDepth, cfg.predDepth, cfg.constDepth))
      && |scratch| == cfg.scratchDepth
    }

    function InputsAt(t: TileCoord): TileInputs {
      TileInputs(if t in dataIn then dataIn[t] else map[], if t in predIn then predIn[t] else map[],
                 if t in pending && cycle in pending[t] then Some(pending[t][cycle]) else None)
    }
  }

  function ControlAt(controls: map<TileCoord, TileControl>, t: TileCoord): TileControl {
    if t in controls then controls[t] else DefaultControl()
  }

  // ----- What is legal -----

  ghost predicate TileRuns(cfg: ArrayConfig, s: ArrayState, controls: map<TileCoord, TileControl>, t: TileCoord) {
    && t in s.tiles && Fits(s.tiles[t], ControlAt(controls, t))
    && TileLegal(ShapeOf(s.tiles[t], s.InputsAt(t)), ControlAt(controls, t), t in cfg.lsu)
  }

  // No load is answered in a cycle in which the tile already expects an answer.
  ghost predicate SingleResponse(cfg: ArrayConfig, s: ArrayState, controls: map<TileCoord, TileControl>, t: TileCoord) {
    ControlAt(controls, t).lsuOp == LsuLoad && t in s.pending ==>
      s.cycle + cfg.loadLatency !in s.pending[t] || cfg.loadLatency == 0
  }

  /** Nothing structural is wrong: every tile has what it uses, and no control is forbidden. */
  ghost predicate StructurallyLegal(cfg: ArrayConfig, s: ArrayState, controls: map<TileCoord, TileControl>) {
    forall t :: t in cfg.Coords() ==> TileRuns(cfg, s, controls, t) && SingleResponse(cfg, s, controls, t)
  }

  ghost function RequestAt(s: ArrayState, controls: map<TileCoord, TileControl>, t: TileCoord): Option<Request> {
    if t in s.tiles && Fits(s.tiles[t], ControlAt(controls, t))
    then RequestOf(s.tiles[t], s.InputsAt(t), ControlAt(controls, t)) else None
  }

  ghost predicate InScratch(cfg: ArrayConfig, s: ArrayState, controls: map<TileCoord, TileControl>, t: TileCoord) {
    t in s.tiles && Fits(s.tiles[t], ControlAt(controls, t)) ==>
      AddressLegal(s.tiles[t], s.InputsAt(t), ControlAt(controls, t), cfg.scratchDepth)
  }

  // Two requests for one address are both loads.
  ghost predicate Compatible<D>(a: Option<PortRequest<D>>, b: Option<PortRequest<D>>) {
    a.Some? && b.Some? && a.value.address == b.value.address ==> a.value.LoadRequest? && b.value.LoadRequest?
  }

  /** All addresses lie in the scratchpad and no store shares its address. */
  ghost predicate MemoryLegal(cfg: ArrayConfig, s: ArrayState, controls: map<TileCoord, TileControl>) {
    && (forall t :: t in cfg.Coords() ==> InScratch(cfg, s, controls, t))
    && forall t, u :: t in cfg.Coords() && u in cfg.Coords() && t != u ==>
         Compatible(RequestAt(s, controls, t), RequestAt(s, controls, u))
  }

  // ----- The next state -----

  ghost function EffectsAt(s: ArrayState, controls: map<TileCoord, TileControl>, t: TileCoord): TileEffects {
    if t in s.tiles && Fits(s.tiles[t], ControlAt(controls, t))
    then EffectsOf(s.tiles[t], s.InputsAt(t), ControlAt(controls, t))
    else TileEffects(map[], map[], map[], map[], None)
  }

  // What arrives at a tile: from each side, what the neighbour there sent this way.
  function Arrivals<V>(rows: nat, cols: nat, outs: map<TileCoord, map<Direction, V>>, t: TileCoord): map<Direction, V> {
    map d: Direction | Neighbor(t, d, rows, cols).Some? && Neighbor(t, d, rows, cols).value in outs &&
                       Opposite(d) in outs[Neighbor(t, d, rows, cols).value] ::
      outs[Neighbor(t, d, rows, cols).value][Opposite(d)]
  }

  ghost predicate Stores<D>(request: Option<PortRequest<D>>, address: nat) {
    request.Some? && request.value.StoreRequest? && request.value.address == address
  }

  // The word at an address once all stores of a cycle are done.
  ghost function StoredWord<D>(requests: map<TileCoord, Option<PortRequest<D>>>, scratch: seq<D>, address: nat): D
    requires address < |scratch|
  {
    if t :| t in requests && Stores(requests[t], address) then requests[t].value.data else scratch[address]
  }

  // What all tiles do in the cycle.
  ghost function AllEffects(s: ArrayState, controls: map<TileCoord, TileControl>): map<TileCoord, TileEffects> {
    map t | t in s.tiles :: EffectsAt(s, controls, t)
  }

  function Requests<D, P>(effects: map<TileCoord, Effects<D, P>>): map<TileCoord, Option<PortRequest<D>>> {
    map t | t in effects :: effects[t].request
  }

  function DataOuts<D, P>(effects: map<TileCoord, Effects<D, P>>): map<TileCoord, map<Direction, D>> {
    map t | t in effects :: effects[t].dataOut
  }

  function PredOuts<D, P>(effects: map<TileCoord, Effects<D, P>>): map<TileCoord, map<Direction, P>> {
    map t | t in effects :: effects[t].predOut
  }

  function NextPending<D>(pending: map<nat, D>, cycle: nat, latency: nat, request: Option<PortRequest<D>>, scratch: seq<D>)
    : map<nat, D>
  {
    var waiting := pending - {cycle};
    if request.Some? && request.value.LoadRequest? && request.value.address < |scratch|
    then waiting[cycle + latency := scratch[request.value.address]] else waiting
  }

  ghost function NextScratch<D>(requests: map<TileCoord, Option<PortRequest<D>>>, scratch: seq<D>): seq<D> {
    seq(|scratch|, address requires 0 <= address < |scratch| => StoredWord(requests, scratch, address))
  }

  // What the effects add up to.
  ghost function StateAfter(cfg: ArrayConfig, s: ArrayState, effects: map<TileCoord, TileEffects>): ArrayState {
    ArrayState(
      map t | t in s.tiles && t in effects :: Committed(s.tiles[t], effects[t]),
      NextScratch(Requests(effects), s.scratch),
      map t | t in s.pending && t in effects ::
        NextPending(s.pending[t], s.cycle, cfg.loadLatency, effects[t].request, s.scratch),
      map t | t in effects :: Arrivals(cfg.rows, cfg.cols, DataOuts(effects), t),
      map t | t in effects :: Arrivals(cfg.rows, cfg.cols, PredOuts(effects), t),
      s.cycle + 1)
  }

  /** The state after a legal cycle. */
  ghost function NextState(cfg: ArrayConfig, s: ArrayState, controls: map<TileCoord, TileControl>): ArrayState {
    StateAfter(cfg, s, AllEffects(s, controls))
  }

  // ----- Links -----

  // Everything sent by the tile sides in `done` has arrived, and nothing else.
  ghost predicate Delivered<V(!new)>(rows: nat, cols: nat, outs: map<TileCoord, map<Direction, V>>,
                                     done: set<(TileCoord, Direction)>, next: map<TileCoord, map<Direction, V>>)
  {
    && (forall t :: t in next <==> InArray(t, rows, cols))
    && (forall t, d: Direction :: t in next ==>
          (d in next[t] <==>
             d in Arrivals(rows, cols, outs, t) && (Neighbor(t, d, rows, cols).value, Opposite(d)) in done))
    && (forall t, d: Direction :: t in next && d in next[t] ==> next[t][d] == Arrivals(rows, cols, outs, t)[d])
  }

  // One side of one tile sends to its neighbour, if there is one.
  method SendSide<V(!new)>(rows: nat, cols: nat, outs: map<TileCoord, map<Direction, V>>, from: TileCoord,
                           direction: Direction, next: map<TileCoord, map<Direction, V>>,
                           ghost done: set<(TileCoord, Direction)>)
    returns (next': map<TileCoord, map<Direction, V>>)
    requires from in outs && Delivered(rows, cols, outs, done, next)
    ensures Delivered(rows, cols, outs, done + {(from, direction)}, next')
  {
    next' := next;
    var to := Neighbor(from, direction, rows, cols);
    if direction in outs[from] && to.Some? {
      NeighborIsSymmetric(from, direction, rows, cols);
      next' := next[to.value := next[to.value][Opposite(direction) := outs[from][direction]]];
    }
    SideDelivered(rows, cols, outs, from, direction, next, next', done);
  }

  lemma OppositeTwice(d: Direction)
    ensures Opposite(Opposite(d)) == d
  {
  }

  lemma SideDelivered<V(!new)>(rows: nat, cols: nat, outs: map<TileCoord, map<Direction, V>>, from: TileCoord,
                               direction: Direction, next: map<TileCoord, map<Direction, V>>,
                               next': map<TileCoord, map<Direction, V>>, done: set<(TileCoord, Direction)>)
    requires from in outs && Delivered(rows, cols, outs, done, next)
    requires var to := Neighbor(from, direction, rows, cols);
      next' == if direction in outs[from] && to.Some? && to.value in next
               then next[to.value := next[to.value][Opposite(direction) := outs[from][direction]]] else next
    ensures Delivered(rows, cols, outs, done + {(from, direction)}, next')
  {
    hide Neighbor;
    var done' := done + {(from, direction)};
    OppositeTwice(direction);
    NeighborIsSymmetric(from, direction, rows, cols);
    forall t, d: Direction | t in next'
      ensures d in next'[t] <==>
        d in Arrivals(rows, cols, outs, t) && (Neighbor(t, d, rows, cols).value, Opposite(d)) in done'
      ensures d in next'[t] ==> next'[t][d] == Arrivals(rows, cols, outs, t)[d]
    {
      NeighborIsSymmetric(t, d, rows, cols);
      OppositeTwice(d);
    }
  }

  method Deliver<V(!new)>(rows: nat, cols: nat, outs: map<TileCoord, map<Direction, V>>)
    returns (next: map<TileCoord, map<Direction, V>>)
    requires forall t :: t in outs <==> InArray(t, rows, cols)
    ensures next == map t | t in outs :: Arrivals(rows, cols, outs, t)
  {
    hide Delivered, Arrivals, Neighbor;
    next := map t | t in outs :: map[];
    ghost var done: set<(TileCoord, Direction)> := {};
    NothingDelivered(rows, cols, outs, next);
    for row := 0 to rows
      invariant Delivered(rows, cols, outs, done, next)
      invariant forall t, d: Direction :: InArray(t, rows, cols) && t.row < row ==> (t, d) in done
    {
      for col := 0 to cols
        invariant Delivered(rows, cols, outs, done, next)
        invariant forall t, d: Direction :: InArray(t, rows, cols) && (t.row < row || (t.row == row && t.col < col)) ==> (t, d) in done
      {
        var from := TileCoord(row, col);
        next := SendSide(rows, cols, outs, from, North, next, done);
        next := SendSide(rows, cols, outs, from, South, next, done + {(from, North)});
        next := SendSide(rows, cols, outs, from, East, next, done + {(from, North)} + {(from, South)});
        next := SendSide(rows, cols, outs, from, West, next, done + {(from, North)} + {(from, South)} + {(from, East)});
        SidesDone(done, from);
        done := done + {(from, North)} + {(from, South)} + {(from, East)} + {(from, West)};
      }
    }
    AllDelivered(rows, cols, outs, done, next);
  }

  lemma SidesDone(done: set<(TileCoord, Direction)>, from: TileCoord)
    ensures forall d: Direction :: (from, d) in done + {(from, North)} + {(from, South)} + {(from, East)} + {(from, West)}
  {
    forall d: Direction
      ensures (from, d) in done + {(from, North)} + {(from, South)} + {(from, East)} + {(from, West)}
    {
      match d
      case North =>
      case South =>
      case East =>
      case West =>
    }
  }

  lemma NothingDelivered<V(!new)>(rows: nat, cols: nat, outs: map<TileCoord, map<Direction, V>>,
                                  next: map<TileCoord, map<Direction, V>>)
    requires forall t :: t in outs <==> InArray(t, rows, cols)
    requires next == map t | t in outs :: map[]
    ensures Delivered(rows, cols, outs, {}, next)
  {
  }

  lemma AllDelivered<V(!new)>(rows: nat, cols: nat, outs: map<TileCoord, map<Direction, V>>,
                              done: set<(TileCoord, Direction)>, next: map<TileCoord, map<Direction, V>>)
    requires forall t :: t in outs <==> InArray(t, rows, cols)
    requires Delivered(rows, cols, outs, done, next)
    requires forall t, d: Direction :: InArray(t, rows, cols) ==> (t, d) in done
    ensures next == map t | t in outs :: Arrivals(rows, cols, outs, t)
  {
    forall t | t in outs
      ensures next[t] == Arrivals(rows, cols, outs, t)
    {
      forall d: Direction
        ensures d in next[t] <==> d in Arrivals(rows, cols, outs, t)
      {
        NeighborIsSymmetric(t, d, rows, cols);
      }
    }
  }

  // ----- Memory -----

  // Requests grouped by address, as far as `seen`.
  ghost predicate Grouped<D>(requests: map<TileCoord, Option<PortRequest<D>>>, seen: set<TileCoord>,
                             groups: map<nat, set<TileCoord>>)
  {
    && (forall t :: t in seen && t in requests && requests[t].Some? ==>
          requests[t].value.address in groups && t in groups[requests[t].value.address])
    && (forall a, t :: a in groups && t in groups[a] ==>
          t in seen && t in requests && requests[t].Some? && requests[t].value.address == a)
  }

  predicate AnyStore<D>(requests: map<TileCoord, Option<PortRequest<D>>>, group: set<TileCoord>) {
    exists t :: t in group && t in requests && requests[t].Some? && requests[t].value.StoreRequest?
  }

  ghost predicate AllCompatible<D>(requests: map<TileCoord, Option<PortRequest<D>>>) {
    forall t, u :: t in requests && u in requests && t != u ==> Compatible(requests[t], requests[u])
  }

  // A group clashes when it has a store and somebody else.
  lemma GroupsDecide<D>(requests: map<TileCoord, Option<PortRequest<D>>>, groups: map<nat, set<TileCoord>>)
    requires Grouped(requests, requests.Keys, groups)
    ensures AllCompatible(requests) <==> forall a :: a in groups ==> !(|groups[a]| > 1 && AnyStore(requests, groups[a]))
  {
    if !AllCompatible(requests) {
      var t, u :| t in requests && u in requests && t != u && !Compatible(requests[t], requests[u]);
      var a := requests[t].value.address;
      TwoMembers(groups[a], t, u);
      assert AnyStore(requests, groups[a]) by {
        if requests[t].value.StoreRequest? {
          assert t in groups[a];
        } else {
          assert u in groups[a];
        }
      }
    }
    forall a | a in groups && |groups[a]| > 1 && AnyStore(requests, groups[a])
      ensures !AllCompatible(requests)
    {
      var t :| t in groups[a] && t in requests && requests[t].Some? && requests[t].value.StoreRequest?;
      var u := AnotherMember(groups[a], t);
      assert !Compatible(requests[t], requests[u]);
    }
  }

  lemma TwoMembers<T>(s: set<T>, t: T, u: T)
    requires t in s && u in s && t != u
    ensures |s| > 1
  {
    assert {t, u} <= s;
    assert |{t, u}| == 2;
    assert s == {t, u} + (s - {t, u});
  }

  lemma AnotherMember<T>(s: set<T>, t: T) returns (u: T)
    requires |s| > 1 && t in s
    ensures u in s && u != t
  {
    assert |s - {t}| == |s| - 1;
    u :| u in s - {t};
  }

  method GroupByAddress<D>(rows: nat, cols: nat, requests: map<TileCoord, Option<PortRequest<D>>>)
    returns (groups: map<nat, set<TileCoord>>)
    requires forall t :: t in requests <==> InArray(t, rows, cols)
    ensures Grouped(requests, requests.Keys, groups)
  {
    groups := map[];
    ghost var seen: set<TileCoord> := {};
    for row := 0 to rows
      invariant Grouped(requests, seen, groups)
      invariant forall t :: t in seen <==> InArray(t, rows, cols) && t.row < row
    {
      for col := 0 to cols
        invariant Grouped(requests, seen, groups)
        invariant forall t :: t in seen <==> InArray(t, rows, cols) && (t.row < row || (t.row == row && t.col < col))
      {
        var t := TileCoord(row, col);
        if requests[t].Some? {
          var a := requests[t].value.address;
          groups := groups[a := (if a in groups then groups[a] else {}) + {t}];
        }
        seen := seen + {t};
      }
    }
    assert seen == requests.Keys;
  }

  method Conflicts(rows: nat, cols: nat, requests: map<TileCoord, Option<Request>>) returns (found: bool)
    requires forall t :: t in requests <==> InArray(t, rows, cols)
    ensures !found <==> AllCompatible(requests)
  {
    hide AllCompatible, AnyStore, Grouped;
    var groups := GroupByAddress(rows, cols, requests);
    GroupsDecide(requests, groups);
    var addresses := groups.Keys;
    while addresses != {}
      invariant addresses <= groups.Keys
      invariant forall a :: a in groups && a !in addresses ==> !(|groups[a]| > 1 && AnyStore(requests, groups[a]))
      decreases addresses
    {
      var a :| a in addresses;
      addresses := addresses - {a};
      if |groups[a]| > 1 && AnyStore(requests, groups[a]) {
        return true;
      }
    }
    found := false;
  }

  // Applying the stores of some tiles, one after another.
  function ApplyStores<D>(order: seq<TileCoord>, requests: map<TileCoord, Option<PortRequest<D>>>, scratch: seq<D>): seq<D> {
    if order == [] then scratch
    else ApplyStore(order[|order| - 1], requests, ApplyStores(order[..|order| - 1], requests, scratch))
  }

  function ApplyStore<D>(t: TileCoord, requests: map<TileCoord, Option<PortRequest<D>>>, scratch: seq<D>): seq<D> {
    if t in requests && requests[t].Some? && requests[t].value.StoreRequest? && requests[t].value.address < |scratch|
    then scratch[requests[t].value.address := requests[t].value.data] else scratch
  }

  lemma {:induction false} AppliedWords<D>(order: seq<TileCoord>, requests: map<TileCoord, Option<PortRequest<D>>>,
                                            scratch: seq<D>)
    requires AllCompatible(requests)
    ensures |ApplyStores(order, requests, scratch)| == |scratch|
    ensures forall t, a :: t in order && t in requests && 0 <= a < |scratch| && Stores(requests[t], a) ==>
      ApplyStores(order, requests, scratch)[a] == requests[t].value.data
    ensures forall a :: 0 <= a < |scratch| && (forall t :: t in order && t in requests ==> !Stores(requests[t], a)) ==>
      ApplyStores(order, requests, scratch)[a] == scratch[a]
  {
    if order != [] {
      var init, last := order[..|order| - 1], order[|order| - 1];
      AppliedWords(init, requests, scratch);
      assert order == init + [last];
      var before := ApplyStores(init, requests, scratch);
      forall t, a | t in order && t in requests && 0 <= a < |scratch| && Stores(requests[t], a)
        ensures ApplyStore(last, requests, before)[a] == requests[t].value.data
      {
        if t != last && last in requests {
          assert Compatible(requests[t], requests[last]);
        }
      }
    }
  }

  /** The order in which the ports of one cycle are served does not matter. */
  lemma OrderIrrelevant<D>(order: seq<TileCoord>, requests: map<TileCoord, Option<PortRequest<D>>>, scratch: seq<D>)
    requires AllCompatible(requests) && forall t :: t in requests ==> t in order
    ensures ApplyStores(order, requests, scratch) == NextScratch(requests, scratch)
  {
    AppliedWords(order, requests, scratch);
    forall a | 0 <= a < |scratch|
      ensures ApplyStores(order, requests, scratch)[a] == StoredWord(requests, scratch, a)
    {
      if t :| t in requests && Stores(requests[t], a) {
        assert requests[t].value.data == ApplyStores(order, requests, scratch)[a];
      }
    }
  }

  method CommitStores(rows: nat, cols: nat, requests: map<TileCoord, Option<Request>>, scratch: seq<Word>)
    returns (scratch': seq<Word>)
    requires AllCompatible(requests) && forall t :: t in requests <==> InArray(t, rows, cols)
    requires forall t :: t in requests && requests[t].Some? ==> requests[t].value.address < |scratch|
    ensures scratch' == NextScratch(requests, scratch)
  {
    hide AllCompatible, NextScratch;
    ghost var order: seq<TileCoord> := [];
    scratch' := scratch;
    for row := 0 to rows
      invariant scratch' == ApplyStores(order, requests, scratch) && |scratch'| == |scratch|
      invariant forall t :: InArray(t, rows, cols) && t.row < row ==> t in order
    {
      for col := 0 to cols
        invariant scratch' == ApplyStores(order, requests, scratch) && |scratch'| == |scratch|
        invariant forall t :: InArray(t, rows, cols) && (t.row < row || (t.row == row && t.col < col)) ==> t in order
      {
        var t := TileCoord(row, col);
        assert (order + [t])[..|order|] == order;
        if requests[t].Some? && requests[t].value.StoreRequest? {
          scratch' := scratch'[requests[t].value.address := requests[t].value.data];
        }
        order := order + [t];
      }
    }
    OrderIrrelevant(order, requests, scratch);
  }

  ghost predicate ResponseSingle<D>(request: Option<PortRequest<D>>, waiting: map<nat, D>, cycle: nat, latency: nat) {
    request.Some? && request.value.LoadRequest? ==> cycle + latency !in waiting - {cycle}
  }

  // Retires this cycle's responses and schedules those of this cycle's loads.
  method IssueLoads(pending: map<TileCoord, map<nat, Word>>, requests: map<TileCoord, Option<Request>>,
                    scratch: seq<Word>, cycle: nat, latency: nat)
    returns (pending': Option<map<TileCoord, map<nat, Word>>>)
    requires forall t :: t in pending ==> t in requests
    requires forall t :: t in requests && requests[t].Some? ==> requests[t].value.address < |scratch|
    ensures pending'.Some? <==> forall t :: t in pending ==> ResponseSingle(requests[t], pending[t], cycle, latency)
    ensures pending'.Some? ==>
      pending'.value == map t | t in pending :: NextPending(pending[t], cycle, latency, requests[t], scratch)
  {
    hide ResponseSingle;
    var next: map<TileCoord, map<nat, Word>> := map[];
    var coords := pending.Keys;
    while coords != {}
      invariant coords <= pending.Keys && next.Keys == pending.Keys - coords
      invariant forall t :: t in next ==>
        ResponseSingle(requests[t], pending[t], cycle, latency) &&
        next[t] == NextPending(pending[t], cycle, latency, requests[t], scratch)
      decreases coords
    {
      var t :| t in coords;
      coords := coords - {t};
      var waiting := pending[t] - {cycle};
      ResponseMeans(requests[t], pending[t], cycle, latency);
      if requests[t].Some? && requests[t].value.LoadRequest? {
        if cycle + latency in waiting {
          return None;
        }
        waiting := waiting[cycle + latency := scratch[requests[t].value.address]];
      }
      next := next[t := waiting];
    }
    assert next == map t | t in pending :: NextPending(pending[t], cycle, latency, requests[t], scratch);
    pending' := Some(next);
  }

  lemma ResponseMeans<D>(request: Option<PortRequest<D>>, waiting: map<nat, D>, cycle: nat, latency: nat)
    ensures ResponseSingle(request, waiting, cycle, latency) <==>
      !(request.Some? && request.value.LoadRequest? && cycle + latency in waiting - {cycle})
  {
  }

  // ----- The machine -----

  // Everything a cycle needs of every tile.
  ghost predicate TilesRun(cfg: ArrayConfig, s: ArrayState, controls: map<TileCoord, TileControl>) {
    forall t :: t in s.tiles ==> TileRuns(cfg, s, controls, t) && InScratch(cfg, s, controls, t)
  }

  lemma ControlFits(cfg: ArrayConfig, s: ArrayState, controls: map<TileCoord, TileControl>, t: TileCoord)
    requires s.Sized(cfg) && cfg.Admits(controls) && t in s.tiles
    ensures Fits(s.tiles[t], ControlAt(controls, t))
    ensures |s.tiles[t].dataRf| == |s.tiles[t].dataValid| && |s.tiles[t].predRf| == |s.tiles[t].predValid|
  {
  }

  lemma TilesOnArray(cfg: ArrayConfig, s: ArrayState)
    requires s.Sized(cfg)
    ensures forall t :: t in s.tiles <==> InArray(t, cfg.rows, cfg.cols)
    ensures forall t :: t in cfg.Coords() <==> t in s.tiles
    ensures forall t :: t in s.pending <==> t in cfg.lsu
    ensures forall t :: t in s.pending ==> t in s.tiles
  {
  }

  method StepAt(cfg: ArrayConfig, s: ArrayState, controls: map<TileCoord, TileControl>, t: TileCoord)
    returns (result: Option<TileEffects>)
    requires s.Sized(cfg) && cfg.Admits(controls) && t in s.tiles
    ensures result.Some? <==> TileRuns(cfg, s, controls, t) && InScratch(cfg, s, controls, t)
    ensures result.Some? ==> result.value == EffectsAt(s, controls, t)
  {
    hide Fits, TileLegal, AddressLegal, EffectsOf, ShapeOf, ControlAt, ArrayState.Sized, ArrayConfig.Admits;
    ControlFits(cfg, s, controls, t);
    result := StepTile(s.tiles[t], ControlAt(controls, t), t in cfg.lsu, s.InputsAt(t), cfg.scratchDepth);
  }

  // Every tile's effects, or None as soon as one tile fails.
  method StepTiles(cfg: ArrayConfig, s: ArrayState, controls: map<TileCoord, TileControl>)
    returns (effects: Option<map<TileCoord, TileEffects>>)
    requires s.Sized(cfg) && cfg.Admits(controls)
    ensures effects.Some? <==> TilesRun(cfg, s, controls)
    ensures effects.Some? ==> effects.value == AllEffects(s, controls)
  {
    hide TileRuns, InScratch, EffectsAt, ArrayState.Sized, ArrayConfig.Admits;
    TilesOnArray(cfg, s);
    var results: map<TileCoord, TileEffects> := map[];
    for row := 0 to cfg.rows
      invariant forall t :: t in results <==> t in s.tiles && t.row < row
      invariant forall t :: t in results ==>
        TileRuns(cfg, s, controls, t) && InScratch(cfg, s, controls, t) && results[t] == EffectsAt(s, controls, t)
    {
      for col := 0 to cfg.cols
        invariant forall t :: t in results <==> t in s.tiles && (t.row < row || (t.row == row && t.col < col))
        invariant forall t :: t in results ==>
          TileRuns(cfg, s, controls, t) && InScratch(cfg, s, controls, t) && results[t] == EffectsAt(s, controls, t)
      {
        var t := TileCoord(row, col);
        var result := StepAt(cfg, s, controls, t);
        if result.None? {
          return None;
        }
        results := results[t := result.value];
      }
    }
    assert results == AllEffects(s, controls);
    effects := Some(results);
  }

  // Requests in range and without clashes, as the memory port logic sees them.
  lemma MemoryByRequests(cfg: ArrayConfig, s: ArrayState, controls: map<TileCoord, TileControl>,
                         requests: map<TileCoord, Option<Request>>)
    requires s.Sized(cfg) && TilesRun(cfg, s, controls) && requests.Keys == s.tiles.Keys
    requires forall t :: t in requests ==> requests[t] == RequestAt(s, controls, t)
    ensures AllCompatible(requests) <==> MemoryLegal(cfg, s, controls)
    ensures forall t :: t in requests && requests[t].Some? ==> requests[t].value.address < |s.scratch|
  {
    hide ArrayState.Sized, TileRuns, InScratch, RequestAt, Compatible;
    TilesOnArray(cfg, s);
    ScratchSized(cfg, s);
    forall t | t in requests && requests[t].Some?
      ensures requests[t].value.address < |s.scratch|
    {
      RequestInRange(cfg, s, controls, t);
    }
  }

  lemma ScratchSized(cfg: ArrayConfig, s: ArrayState)
    requires s.Sized(cfg)
    ensures |s.scratch| == cfg.scratchDepth
  {
  }

  lemma RequestInRange(cfg: ArrayConfig, s: ArrayState, controls: map<TileCoord, TileControl>, t: TileCoord)
    requires InScratch(cfg, s, controls, t) && RequestAt(s, controls, t).Some?
    ensures RequestAt(s, controls, t).value.address < cfg.scratchDepth
  {
    hide DataValue, PredValue, ControlAt, Fits;
    var ctrl := ControlAt(controls, t);
    assert ctrl.lsuOp != LsuNone;
    assert RequestAt(s, controls, t).value.address == AddressOf(s.tiles[t], s.InputsAt(t), ctrl);
  }

  // A load answers later, at most once per cycle.
  lemma ResponsesByTile(cfg: ArrayConfig, s: ArrayState, controls: map<TileCoord, TileControl>)
    requires s.Sized(cfg) && TilesRun(cfg, s, controls)
    ensures StructurallyLegal(cfg, s, controls) <==>
      forall t :: t in s.pending ==> ResponseSingle(RequestAt(s, controls, t), s.pending[t], s.cycle, cfg.loadLatency)
  {
    hide ArrayState.Sized, TileRuns, InScratch, RequestAt, SingleResponse, ResponseSingle;
    TilesOnArray(cfg, s);
    forall t | t in s.tiles
      ensures TileRuns(cfg, s, controls, t)
      ensures SingleResponse(cfg, s, controls, t) <==>
        (t in s.pending ==> ResponseSingle(RequestAt(s, controls, t), s.pending[t], s.cycle, cfg.loadLatency))
    {
      ResponseByTile(cfg, s, controls, t);
    }
  }

  lemma ResponseByTile(cfg: ArrayConfig, s: ArrayState, controls: map<TileCoord, TileControl>, t: TileCoord)
    requires t in s.tiles && TileRuns(cfg, s, controls, t)
    ensures SingleResponse(cfg, s, controls, t) <==>
      (t in s.pending ==> ResponseSingle(RequestAt(s, controls, t), s.pending[t], s.cycle, cfg.loadLatency))
  {
    hide TileRuns, RequestAt, ControlAt;
    LoadIsRequest(cfg, s, controls, t);
  }

  lemma LoadIsRequest(cfg: ArrayConfig, s: ArrayState, controls: map<TileCoord, TileControl>, t: TileCoord)
    requires t in s.tiles && TileRuns(cfg, s, controls, t)
    ensures ControlAt(controls, t).lsuOp == LsuLoad <==>
      RequestAt(s, controls, t).Some? && RequestAt(s, controls, t).value.LoadRequest?
    ensures ControlAt(controls, t).lsuOp == LsuLoad ==> t in cfg.lsu
  {
    hide ControlAt, ShapeOf, DataValue, PredValue, DataUses, PredUses;
  }

  class MultiTileGolden {
    const cfg: ArrayConfig
    var tiles: map<TileCoord, TileState>
    var sharedScratchpad: seq<Word>
    var pendingLoads: map<TileCoord, map<nat, Word>>
    var dataInputs: map<TileCoord, map<Direction, Word>>
    var predInputs: map<TileCoord, map<Direction, bool>>
    var cycle: nat

    constructor (cfg: ArrayConfig, s: ArrayState)
      ensures this.cfg == cfg && State() == s
    {
      this.cfg := cfg;
      tiles, sharedScratchpad, pendingLoads := s.tiles, s.scratch, s.pending;
      dataInputs, predInputs, cycle := s.dataIn, s.predIn, s.cycle;
    }

    function State(): ArrayState
      reads this
    {
      ArrayState(tiles, sharedScratchpad, pendingLoads, dataInputs, predInputs, cycle)
    }

    /** One cycle of the whole array; false where the Python model raises. */
    method Step(controls: map<TileCoord, TileControl>) returns (ok: bool)
      requires State().Sized(cfg) && cfg.Admits(controls)
      modifies this
      ensures ok <==> StructurallyLegal(cfg, old(State()), controls) && MemoryLegal(cfg, old(State()), controls)
      ensures ok ==> State() == NextState(cfg, old(State()), controls)
      ensures ok ==> ResultsWritten(old(State()), controls, State())
      ensures !ok ==> State() == old(State())
    {
      hide StructurallyLegal, MemoryLegal, NextState, ResultsWritten, ArrayState.Sized, ArrayConfig.Admits;
      var effects := StepTiles(cfg, State(), controls);
      if effects.None? {
        NotAllRun(cfg, State(), controls);
        return false;
      }
      var next := Resolve(cfg, State(), controls, effects.value);
      if next.None? {
        return false;
      }
      LegalStepWrites(cfg, State(), controls);
      tiles, sharedScratchpad, pendingLoads := next.value.tiles, next.value.scratch, next.value.pending;
      dataInputs, predInputs, cycle := next.value.dataIn, next.value.predIn, next.value.cycle;
      ok := true;
    }
  }

  /** In every tile the registers hold what the function unit computed, what was routed to them, or what they held before. */
  ghost predicate ResultsWritten(s: ArrayState, controls: map<TileCoord, TileControl>, after: ArrayState) {
    forall t :: t in s.tiles ==>
      && t in after.tiles && Fits(s.tiles[t], ControlAt(controls, t))
      && RegistersFollow(s.tiles[t], s.InputsAt(t), ControlAt(controls, t), after.tiles[t])
  }

  lemma LegalStepWrites(cfg: ArrayConfig, s: ArrayState, controls: map<TileCoord, TileControl>)
    requires s.Sized(cfg) && StructurallyLegal(cfg, s, controls)
    ensures ResultsWritten(s, controls, NextState(cfg, s, controls))
  {
    hide Committed, EffectsOf, ControlAt, Fits, NextState, RegistersFollow, StructurallyLegal, ArrayState.Sized,
         ArrayState.InputsAt;
    TilesOnArray(cfg, s);
    forall t | t in s.tiles
      ensures t in NextState(cfg, s, controls).tiles && Fits(s.tiles[t], ControlAt(controls, t))
      ensures RegistersFollow(s.tiles[t], s.InputsAt(t), ControlAt(controls, t), NextState(cfg, s, controls).tiles[t])
    {
      TileAfter(cfg, s, controls, t);
      LegalCycleWrites(s.tiles[t], s.InputsAt(t), ControlAt(controls, t), t in cfg.lsu);
    }
  }

  lemma TileAfter(cfg: ArrayConfig, s: ArrayState, controls: map<TileCoord, TileControl>, t: TileCoord)
    requires t in s.tiles && t in cfg.Coords() && StructurallyLegal(cfg, s, controls)
    ensures Fits(s.tiles[t], ControlAt(controls, t)) && ControlLegal(ControlAt(controls, t), t in cfg.lsu)
    ensures t in NextState(cfg, s, controls).tiles
    ensures NextState(cfg, s, controls).tiles[t] ==
            Committed(s.tiles[t], EffectsOf(s.tiles[t], s.InputsAt(t), ControlAt(controls, t)))
  {
    hide Committed, EffectsOf, ControlAt, Fits, NextScratch, NextPending, Arrivals, ControlLegal;
    assert TileRuns(cfg, s, controls, t);
  }

  // Memory first, then registers and links: what the tiles' effects add up to.
  method Resolve(cfg: ArrayConfig, s: ArrayState, ghost controls: map<TileCoord, TileControl>,
                 effects: map<TileCoord, TileEffects>)
    returns (next: Option<ArrayState>)
    requires s.Sized(cfg) && TilesRun(cfg, s, controls) && effects == AllEffects(s, controls)
    ensures next.Some? <==> StructurallyLegal(cfg, s, controls) && MemoryLegal(cfg, s, controls)
    ensures next.Some? ==> next.value == NextState(cfg, s, controls)
  {
    hide TilesRun, StructurallyLegal, MemoryLegal, AllCompatible, EffectsAt, RequestAt, ArrayState.Sized, NextPending,
         NextScratch, Arrivals, Committed, ResponseSingle, StateAfter, AllEffects, Requests, DataOuts, PredOuts;
    var requests, dataOuts, predOuts := Requests(effects), DataOuts(effects), PredOuts(effects);
    TilesOnArray(cfg, s);
    EffectsMatch(s, controls, effects);
    MemoryByRequests(cfg, s, controls, requests);
    ResponsesByTile(cfg, s, controls);
    var clash := Conflicts(cfg.rows, cfg.cols, requests);
    if clash {
      return None;
    }
    var pending := IssueLoads(s.pending, requests, s.scratch, s.cycle, cfg.loadLatency);
    if pending.None? {
      return None;
    }
    var scratch := CommitStores(cfg.rows, cfg.cols, requests, s.scratch);
    var dataIn := Deliver(cfg.rows, cfg.cols, dataOuts);
    var predIn := Deliver(cfg.rows, cfg.cols, predOuts);
    var tiles := map t | t in s.tiles && t in effects :: Committed(s.tiles[t], effects[t]);
    next := Some(ArrayState(tiles, scratch, pending.value, dataIn, predIn, s.cycle + 1));
    AfterIs(cfg, s, controls, effects, requests, next.value);
  }

  lemma AfterIs(cfg: ArrayConfig, s: ArrayState, controls: map<TileCoord, TileControl>,
                effects: map<TileCoord, TileEffects>, requests: map<TileCoord, Option<Request>>, next: ArrayState)
    requires effects == AllEffects(s, controls) && requests == Requests(effects)
    requires requests.Keys == DataOuts(effects).Keys == PredOuts(effects).Keys
    requires forall t :: t in s.pending ==> t in requests
    requires next.tiles == map t | t in s.tiles && t in effects :: Committed(s.tiles[t], effects[t])
    requires next.scratch == NextScratch(requests, s.scratch)
    requires next.pending ==
      map t | t in s.pending :: NextPending(s.pending[t], s.cycle, cfg.loadLatency, requests[t], s.scratch)
    requires next.dataIn == map t | t in DataOuts(effects) :: Arrivals(cfg.rows, cfg.cols, DataOuts(effects), t)
    requires next.predIn == map t | t in PredOuts(effects) :: Arrivals(cfg.rows, cfg.cols, PredOuts(effects), t)
    requires next.cycle == s.cycle + 1
    ensures next == NextState(cfg, s, controls)
  {
    hide NextPending, NextScratch, Arrivals, Committed, AllEffects;
    PendingAfter(cfg, s, effects, requests, next.pending);
    OutsKeys(effects);
    hide Requests, DataOuts, PredOuts;
  }

  lemma PendingAfter(cfg: ArrayConfig, s: ArrayState, effects: map<TileCoord, TileEffects>,
                     requests: map<TileCoord, Option<Request>>, pending: map<TileCoord, map<nat, Word>>)
    requires requests == Requests(effects) && forall t :: t in s.pending ==> t in requests
    requires pending ==
      map t | t in s.pending :: NextPending(s.pending[t], s.cycle, cfg.loadLatency, requests[t], s.scratch)
    ensures pending == map t | t in s.pending && t in effects ::
      NextPending(s.pending[t], s.cycle, cfg.loadLatency, effects[t].request, s.scratch)
  {
    hide NextPending;
  }

  lemma OutsKeys(effects: map<TileCoord, TileEffects>)
    ensures DataOuts(effects).Keys == effects.Keys == PredOuts(effects).Keys
  {
  }

  lemma EffectsMatch(s: ArrayState, controls: map<TileCoord, TileControl>, effects: map<TileCoord, TileEffects>)
    requires effects == AllEffects(s, controls)
    ensures Requests(effects).Keys == s.tiles.Keys == DataOuts(effects).Keys == PredOuts(effects).Keys
    ensures forall t :: t in Requests(effects) ==> Requests(effects)[t] == RequestAt(s, controls, t)
  {
    hide EffectsAt, RequestAt;
    forall t | t in s.tiles
      ensures EffectsAt(s, controls, t).request == RequestAt(s, controls, t)
    {
      RequestIsEffect(s, controls, t);
    }
  }

  lemma NotAllRun(cfg: ArrayConfig, s: ArrayState, controls: map<TileCoord, TileControl>)
    requires s.Sized(cfg) && !TilesRun(cfg, s, controls)
    ensures !(StructurallyLegal(cfg, s, controls) && MemoryLegal(cfg, s, controls))
  {
    hide Fits, TileLegal, AddressLegal, ShapeOf, ControlAt;
  }

  lemma RequestIsEffect(s: ArrayState, controls: map<TileCoord, TileControl>, t: TileCoord)
    ensures EffectsAt(s, controls, t).request == RequestAt(s, controls, t)
  {
    hide DataValue, PredValue, ControlAt, FuValue, DataOutOf, PredOutOf, Fits, RequestOf;
  }
}
