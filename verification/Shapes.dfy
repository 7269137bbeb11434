// The structural skeleton of the machine: which values exist, regardless of what they are.

module Shapes {
  import opened Wrappers
  import opened Mesh
  import opened Tile
  import opened GoldenArray
  import opened GoldenRuns

  /** Valid bits, link arrivals and outstanding loads, the latter relative to the present cycle. */
  datatype ArrayShape = ArrayShape(
    dataValid: map<TileCoord, seq<bool>>,
    predValid: map<TileCoord, seq<bool>>,
    dataArrived: map<TileCoord, set<Direction>>,
    predArrived: map<TileCoord, set<Direction>>,
    waiting: map<TileCoord, set<int>>)

  ghost function ShapeOfState(s: ArrayState): ArrayShape {
    ArrayShape(
      map t | t in s.tiles :: s.tiles[t].dataValid,
      map t | t in s.tiles :: s.tiles[t].predValid,
      Keyed(s.dataIn),
      Keyed(s.predIn),
      map t | t in s.pending :: Relative(s.pending[t], s.cycle))
  }

  ghost function Keyed<V>(arrivals: map<TileCoord, map<Direction, V>>): map<TileCoord, set<Direction>> {
    map t | t in arrivals :: arrivals[t].Keys
  }

  ghost function Relative(pending: map<nat, Word>, cycle: nat): set<int> {
    set r | r in pending :: r - cycle
  }

  ghost function TileShapeAt(shape: ArrayShape, t: TileCoord): TileShape {
    TileShape(if t in shape.dataValid then shape.dataValid[t] else [],
              if t in shape.predValid then shape.predValid[t] else [],
              if t in shape.dataArrived then shape.dataArrived[t] else {},
              if t in shape.predArrived then shape.predArrived[t] else {},
              t in shape.waiting && 0 in shape.waiting[t])
  }

  // A cycle is structurally legal, judged from the shape alone.
  ghost predicate ShapeRuns(cfg: ArrayConfig, shape: ArrayShape, controls: Controls, t: TileCoord) {
    && TileLegal(TileShapeAt(shape, t), ControlAt(controls, t), t in cfg.lsu)
    && (ControlAt(controls, t).lsuOp == LsuLoad && t in shape.waiting ==>
          cfg.loadLatency !in shape.waiting[t] || cfg.loadLatency == 0)
  }

  ghost predicate ShapeLegal(cfg: ArrayConfig, shape: ArrayShape, controls: Controls) {
    forall t :: t in cfg.Coords() ==> ShapeRuns(cfg, shape, controls, t)
  }

  // ----- How a cycle changes the shape -----

  ghost function ValidAfter(valid: seq<bool>, writes: set<nat>): seq<bool> {
    seq(|valid|, i requires 0 <= i < |valid| => i in writes || valid[i])
  }

  ghost function ArrivedAfter<S(!new)>(cfg: ArrayConfig, enabled: map<TileCoord, Sides<RouteControl<S>>>, t: TileCoord)
    : set<Direction>
  {
    set d: Direction | Neighbor(t, d, cfg.rows, cfg.cols).Some? && Neighbor(t, d, cfg.rows, cfg.cols).value in enabled &&
                       enabled[Neighbor(t, d, cfg.rows, cfg.cols).value].At(Opposite(d)).we
  }

  ghost function ArrivedAll<S(!new)>(cfg: ArrayConfig, enabled: map<TileCoord, Sides<RouteControl<S>>>)
    : map<TileCoord, set<Direction>>
  {
    map t | t in enabled :: ArrivedAfter(cfg, enabled, t)
  }

  ghost function WaitingAfter(cfg: ArrayConfig, waiting: set<int>, ctrl: TileControl): set<int> {
    Shifted(waiting) + (if ctrl.lsuOp == LsuLoad then {cfg.loadLatency - 1} else {})
  }

  // Those answered now are gone, the others are one cycle closer.
  ghost function Shifted(waiting: set<int>): set<int> {
    set r | r in waiting && r != 0 :: r - 1
  }

  ghost function DataRoutesOf(tiles: set<TileCoord>, controls: Controls): map<TileCoord, Sides<RouteControl<DataSource>>> {
    map t | t in tiles :: ControlAt(controls, t).dataRoutes
  }

  ghost function PredRoutesOf(tiles: set<TileCoord>, controls: Controls): map<TileCoord, Sides<RouteControl<PredSource>>> {
    map t | t in tiles :: ControlAt(controls, t).predRoutes
  }

  ghost function ShapeNext(cfg: ArrayConfig, shape: ArrayShape, controls: Controls): ArrayShape {
    ArrayShape(
      map t | t in shape.dataValid :: ValidAfter(shape.dataValid[t], DataWrites(ControlAt(controls, t))),
      map t | t in shape.predValid :: ValidAfter(shape.predValid[t], PredWrites(ControlAt(controls, t))),
      ArrivedAll(cfg, DataRoutesOf(shape.dataValid.Keys, controls)),
      ArrivedAll(cfg, PredRoutesOf(shape.dataValid.Keys, controls)),
      map t | t in shape.waiting :: WaitingAfter(cfg, shape.waiting[t], ControlAt(controls, t)))
  }

  // ----- The shape of a state tells all that is structural -----

  lemma SameTileShape(cfg: ArrayConfig, s: ArrayState, t: TileCoord)
    requires s.Sized(cfg) && t in s.tiles
    ensures TileShapeAt(ShapeOfState(s), t) == ShapeOf(s.tiles[t], s.InputsAt(t))
  {
    if t in s.pending {
      assert 0 in Relative(s.pending[t], s.cycle) <==> s.cycle in s.pending[t] by {
        if s.cycle in s.pending[t] {
          assert s.cycle - s.cycle in Relative(s.pending[t], s.cycle);
        }
      }
    }
  }

  lemma ShapeDecidesTile(cfg: ArrayConfig, s: ArrayState, controls: Controls, t: TileCoord)
    requires s.Sized(cfg) && cfg.Admits(controls) && t in s.tiles
    ensures TileRuns(cfg, s, controls, t) && SingleResponse(cfg, s, controls, t) <==>
            ShapeRuns(cfg, ShapeOfState(s), controls, t)
  {
    hide TileLegal, ControlAt, ShapeOf, Fits, ArrayState.Sized, ArrayConfig.Admits, TileShapeAt;
    ControlFits(cfg, s, controls, t);
    SameTileShape(cfg, s, t);
    if t in s.pending {
      assert cfg.loadLatency in Relative(s.pending[t], s.cycle) <==> s.cycle + cfg.loadLatency in s.pending[t] by {
        if s.cycle + cfg.loadLatency in s.pending[t] {
          assert s.cycle + cfg.loadLatency - s.cycle in Relative(s.pending[t], s.cycle);
        }
      }
    }
  }

  lemma ShapeDecides(cfg: ArrayConfig, s: ArrayState, controls: Controls)
    requires s.Sized(cfg) && cfg.Admits(controls)
    ensures StructurallyLegal(cfg, s, controls) <==> ShapeLegal(cfg, ShapeOfState(s), controls)
  {
    hide TileRuns, SingleResponse, ShapeRuns, ShapeOfState, ArrayState.Sized, ArrayConfig.Admits;
    TilesOnArray(cfg, s);
    forall t | t in s.tiles
      ensures TileRuns(cfg, s, controls, t) && SingleResponse(cfg, s, controls, t) <==>
              ShapeRuns(cfg, ShapeOfState(s), controls, t)
    {
      ShapeDecidesTile(cfg, s, controls, t);
    }
  }

  // ----- and how it evolves -----

  lemma WritesByControl(s: ArrayState, controls: Controls, t: TileCoord)
    requires t in s.tiles && Fits(s.tiles[t], ControlAt(controls, t))
    ensures EffectsAt(s, controls, t).dataWrites.Keys == DataWrites(ControlAt(controls, t))
    ensures EffectsAt(s, controls, t).predWrites.Keys == PredWrites(ControlAt(controls, t))
    ensures forall d: Direction :: d in EffectsAt(s, controls, t).dataOut <==> ControlAt(controls, t).dataRoutes.At(d).we
    ensures forall d: Direction :: d in EffectsAt(s, controls, t).predOut <==> ControlAt(controls, t).predRoutes.At(d).we
  {
    hide DataValue, PredValue, FuValue, Fits, ControlAt, RequestOf, DataRouteValue, PredRouteValue;
  }

  lemma ValidEvolves(cfg: ArrayConfig, s: ArrayState, controls: Controls, t: TileCoord)
    requires s.Sized(cfg) && cfg.Admits(controls) && t in s.tiles
    ensures Committed(s.tiles[t], EffectsAt(s, controls, t)).dataValid ==
            ValidAfter(s.tiles[t].dataValid, DataWrites(ControlAt(controls, t)))
    ensures Committed(s.tiles[t], EffectsAt(s, controls, t)).predValid ==
            ValidAfter(s.tiles[t].predValid, PredWrites(ControlAt(controls, t)))
  {
    ControlFits(cfg, s, controls, t);
    WritesByControl(s, controls, t);
    hide DataWrites, PredWrites, EffectsAt, ControlAt, Fits;
  }

  lemma InRelative(pending: map<nat, Word>, cycle: nat, x: int)
    ensures x in Relative(pending, cycle) <==> x + cycle >= 0 && x + cycle in pending
  {
    if x + cycle >= 0 && x + cycle in pending {
      assert (x + cycle) - cycle == x;
    }
  }

  lemma InShifted(waiting: set<int>, x: int)
    ensures x in Shifted(waiting) <==> x + 1 in waiting && x + 1 != 0
  {
    if x + 1 in waiting && x + 1 != 0 {
      assert (x + 1) - 1 == x;
    }
  }

  // Outstanding loads move one cycle closer, and a new one joins them.
  lemma RelativeStep(pending: map<nat, Word>, cycle: nat, latency: nat, request: Option<Request>, scratch: seq<Word>)
    requires request.Some? ==> request.value.address < |scratch|
    ensures Relative(NextPending(pending, cycle, latency, request, scratch), cycle + 1) ==
            Shifted(Relative(pending, cycle)) +
            (if request.Some? && request.value.LoadRequest? then {latency - 1} else {})
  {
    hide Relative, Shifted;
    var before, after := Relative(pending, cycle), Relative(NextPending(pending, cycle, latency, request, scratch), cycle + 1);
    var expected := Shifted(before) + (if request.Some? && request.value.LoadRequest? then {latency - 1} else {});
    forall x
      ensures x in after <==> x in expected
    {
      InRelative(NextPending(pending, cycle, latency, request, scratch), cycle + 1, x);
      InRelative(pending, cycle, x + 1);
      InShifted(before, x);
    }
  }

  lemma WaitingEvolves(cfg: ArrayConfig, s: ArrayState, controls: Controls, t: TileCoord)
    requires s.Sized(cfg) && t in s.pending && TilesRun(cfg, s, controls) && MemoryLegal(cfg, s, controls)
    ensures Relative(NextPending(s.pending[t], s.cycle, cfg.loadLatency, RequestAt(s, controls, t), s.scratch), s.cycle + 1) ==
            WaitingAfter(cfg, Relative(s.pending[t], s.cycle), ControlAt(controls, t))
  {
    hide Relative, Shifted, NextPending, MemoryLegal, TilesRun, ArrayState.Sized, RequestAt, ControlAt;
    LoadFacts(cfg, s, controls, t);
    RelativeStep(s.pending[t], s.cycle, cfg.loadLatency, RequestAt(s, controls, t), s.scratch);
  }

  lemma LoadFacts(cfg: ArrayConfig, s: ArrayState, controls: Controls, t: TileCoord)
    requires s.Sized(cfg) && t in s.pending && TilesRun(cfg, s, controls) && MemoryLegal(cfg, s, controls)
    ensures ControlAt(controls, t).lsuOp == LsuLoad <==>
      RequestAt(s, controls, t).Some? && RequestAt(s, controls, t).value.LoadRequest?
    ensures RequestAt(s, controls, t).Some? ==> RequestAt(s, controls, t).value.address < |s.scratch|
  {
    TilesOnArray(cfg, s);
    hide ArrayState.Sized, TileRuns, InScratch, RequestAt, ControlAt, MemoryLegal;
    LoadIsRequest(cfg, s, controls, t);
    LoadInRange(cfg, s, controls, t);
  }

  // What arrives depends only on which sides send.
  lemma ArrivalKeys<S(!new), V(!new)>(cfg: ArrayConfig, outs: map<TileCoord, map<Direction, V>>,
                                      enabled: map<TileCoord, Sides<RouteControl<S>>>, t: TileCoord)
    requires outs.Keys == enabled.Keys
    requires forall u, d: Direction :: u in outs ==> (d in outs[u] <==> enabled[u].At(d).we)
    ensures Arrivals(cfg.rows, cfg.cols, outs, t).Keys == ArrivedAfter(cfg, enabled, t)
  {
    hide Neighbor;
  }

  lemma SendersByControl(cfg: ArrayConfig, s: ArrayState, controls: Controls, u: TileCoord)
    requires s.Sized(cfg) && cfg.Admits(controls) && u in s.tiles
    ensures u in DataOuts(AllEffects(s, controls)) && u in PredOuts(AllEffects(s, controls))
    ensures u in DataRoutesOf(s.tiles.Keys, controls) && u in PredRoutesOf(s.tiles.Keys, controls)
    ensures forall d: Direction ::
      d in DataOuts(AllEffects(s, controls))[u] <==> DataRoutesOf(s.tiles.Keys, controls)[u].At(d).we
    ensures forall d: Direction ::
      d in PredOuts(AllEffects(s, controls))[u] <==> PredRoutesOf(s.tiles.Keys, controls)[u].At(d).we
  {
    hide EffectsAt, ControlAt, ArrayState.Sized, ArrayConfig.Admits, Fits;
    ControlFits(cfg, s, controls, u);
    WritesByControl(s, controls, u);
  }

  lemma ArrivalsEvolve(cfg: ArrayConfig, s: ArrayState, controls: Controls, t: TileCoord)
    requires s.Sized(cfg) && cfg.Admits(controls)
    ensures Arrivals(cfg.rows, cfg.cols, DataOuts(AllEffects(s, controls)), t).Keys ==
            ArrivedAfter(cfg, DataRoutesOf(s.tiles.Keys, controls), t)
    ensures Arrivals(cfg.rows, cfg.cols, PredOuts(AllEffects(s, controls)), t).Keys ==
            ArrivedAfter(cfg, PredRoutesOf(s.tiles.Keys, controls), t)
  {
    EffectsMatch(s, controls, AllEffects(s, controls));
    RoutesKeys(s.tiles.Keys, controls);
    hide Arrivals, ArrivedAfter, DataOuts, PredOuts, AllEffects, DataRoutesOf, PredRoutesOf, ArrayState.Sized,
         ArrayConfig.Admits;
    forall u | u in s.tiles
      ensures u in DataOuts(AllEffects(s, controls)) && u in PredOuts(AllEffects(s, controls))
      ensures u in DataRoutesOf(s.tiles.Keys, controls) && u in PredRoutesOf(s.tiles.Keys, controls)
      ensures forall d: Direction ::
        d in DataOuts(AllEffects(s, controls))[u] <==> DataRoutesOf(s.tiles.Keys, controls)[u].At(d).we
      ensures forall d: Direction ::
        d in PredOuts(AllEffects(s, controls))[u] <==> PredRoutesOf(s.tiles.Keys, controls)[u].At(d).we
    {
      SendersByControl(cfg, s, controls, u);
    }
    ArrivalKeys(cfg, DataOuts(AllEffects(s, controls)), DataRoutesOf(s.tiles.Keys, controls), t);
    ArrivalKeys(cfg, PredOuts(AllEffects(s, controls)), PredRoutesOf(s.tiles.Keys, controls), t);
  }

  lemma RoutesKeys(tiles: set<TileCoord>, controls: Controls)
    ensures DataRoutesOf(tiles, controls).Keys == tiles == PredRoutesOf(tiles, controls).Keys
  {
  }

  ghost predicate RegistersMatch(next: ArrayState, s: ArrayState, controls: Controls, t: TileCoord)
    requires t in s.tiles && t in next.tiles
  {
    && next.tiles[t].dataValid == ValidAfter(s.tiles[t].dataValid, DataWrites(ControlAt(controls, t)))
    && next.tiles[t].predValid == ValidAfter(s.tiles[t].predValid, PredWrites(ControlAt(controls, t)))
  }

  ghost predicate LinksMatch(cfg: ArrayConfig, next: ArrayState, s: ArrayState, controls: Controls, t: TileCoord)
    requires t in next.dataIn && t in next.predIn
  {
    && next.dataIn[t].Keys == ArrivedAfter(cfg, DataRoutesOf(s.tiles.Keys, controls), t)
    && next.predIn[t].Keys == ArrivedAfter(cfg, PredRoutesOf(s.tiles.Keys, controls), t)
  }

  ghost predicate WaitingMatch(cfg: ArrayConfig, next: ArrayState, s: ArrayState, controls: Controls, t: TileCoord)
    requires t in s.pending && t in next.pending
  {
    Relative(next.pending[t], next.cycle) == WaitingAfter(cfg, Relative(s.pending[t], s.cycle), ControlAt(controls, t))
  }

  // Registers and links after a cycle, by shape.
  lemma TileEvolves(cfg: ArrayConfig, s: ArrayState, controls: Controls, t: TileCoord)
    requires s.Sized(cfg) && cfg.Admits(controls) && t in s.tiles
    ensures t in NextState(cfg, s, controls).tiles && RegistersMatch(NextState(cfg, s, controls), s, controls, t)
    ensures t in NextState(cfg, s, controls).dataIn && t in NextState(cfg, s, controls).predIn
    ensures LinksMatch(cfg, NextState(cfg, s, controls), s, controls, t)
  {
    hide NextState, Committed, EffectsAt, ArrayState.Sized, ArrayConfig.Admits, ControlAt, DataWrites, PredWrites, ValidAfter,
         Arrivals, ArrivedAfter, DataRoutesOf, PredRoutesOf, DataOuts, PredOuts, AllEffects;
    NextTile(cfg, s, controls, t);
    ValidEvolves(cfg, s, controls, t);
    ArrivalsEvolve(cfg, s, controls, t);
  }

  lemma PendingEvolves(cfg: ArrayConfig, s: ArrayState, controls: Controls, t: TileCoord)
    requires s.Sized(cfg) && t in s.pending && TilesRun(cfg, s, controls) && MemoryLegal(cfg, s, controls)
    ensures t in NextState(cfg, s, controls).pending && WaitingMatch(cfg, NextState(cfg, s, controls), s, controls, t)
  {
    SizedKeys(cfg, s);
    NextCycle(cfg, s, controls);
    hide NextState, ArrayState.Sized, TilesRun, MemoryLegal, RequestAt, ControlAt, Relative, WaitingAfter, NextPending;
    PendingStep(cfg, s, controls, t);
    WaitingEvolves(cfg, s, controls, t);
  }

  lemma SameValid(cfg: ArrayConfig, s: ArrayState, next: ArrayState, controls: Controls)
    requires next.tiles.Keys == s.tiles.Keys && forall t :: t in s.tiles ==> RegistersMatch(next, s, controls, t)
    ensures ShapeOfState(next).dataValid == ShapeNext(cfg, ShapeOfState(s), controls).dataValid
    ensures ShapeOfState(next).predValid == ShapeNext(cfg, ShapeOfState(s), controls).predValid
  {
    hide Relative, WaitingAfter, ValidAfter, ArrivedAfter, DataRoutesOf, PredRoutesOf, DataWrites, PredWrites, ControlAt;
  }

  lemma SameArrivals<S(!new), V>(cfg: ArrayConfig, arrivals: map<TileCoord, map<Direction, V>>,
                                 enabled: map<TileCoord, Sides<RouteControl<S>>>)
    requires arrivals.Keys == enabled.Keys
    requires forall t :: t in arrivals ==> arrivals[t].Keys == ArrivedAfter(cfg, enabled, t)
    ensures Keyed(arrivals) == ArrivedAll(cfg, enabled)
  {
    hide ArrivedAfter;
  }

  lemma SameLinks(cfg: ArrayConfig, s: ArrayState, next: ArrayState, controls: Controls)
    requires next.dataIn.Keys == next.predIn.Keys == s.tiles.Keys
    requires forall t :: t in s.tiles ==> LinksMatch(cfg, next, s, controls, t)
    ensures ShapeOfState(next).dataArrived == ShapeNext(cfg, ShapeOfState(s), controls).dataArrived
    ensures ShapeOfState(next).predArrived == ShapeNext(cfg, ShapeOfState(s), controls).predArrived
  {
    assert ShapeOfState(s).dataValid.Keys == s.tiles.Keys;
    RoutesKeys(s.tiles.Keys, controls);
    hide Relative, WaitingAfter, ValidAfter, ArrivedAfter, DataRoutesOf, PredRoutesOf, DataWrites, PredWrites, ControlAt,
         Keyed, ArrivedAll;
    SameArrivals(cfg, next.dataIn, DataRoutesOf(s.tiles.Keys, controls));
    SameArrivals(cfg, next.predIn, PredRoutesOf(s.tiles.Keys, controls));
  }

  lemma SameWaiting(cfg: ArrayConfig, s: ArrayState, next: ArrayState, controls: Controls)
    requires next.pending.Keys == s.pending.Keys && forall t :: t in s.pending ==> WaitingMatch(cfg, next, s, controls, t)
    ensures ShapeOfState(next).waiting == ShapeNext(cfg, ShapeOfState(s), controls).waiting
  {
    hide Relative, WaitingAfter, ValidAfter, ArrivedAfter, DataRoutesOf, PredRoutesOf, DataWrites, PredWrites, ControlAt;
  }

  lemma TilesEvolve(cfg: ArrayConfig, s: ArrayState, controls: Controls)
    requires s.Sized(cfg) && cfg.Admits(controls)
    ensures var (shape, next) := (ShapeNext(cfg, ShapeOfState(s), controls), ShapeOfState(NextState(cfg, s, controls)));
      && next.dataValid == shape.dataValid && next.predValid == shape.predValid
      && next.dataArrived == shape.dataArrived && next.predArrived == shape.predArrived
  {
    hide *;
    NextSized(cfg, s, controls);
    SizedKeys(cfg, s);
    SizedKeys(cfg, NextState(cfg, s, controls));
    forall t | t in s.tiles
      ensures RegistersMatch(NextState(cfg, s, controls), s, controls, t)
      ensures LinksMatch(cfg, NextState(cfg, s, controls), s, controls, t)
    {
      TileEvolves(cfg, s, controls, t);
    }
    SameValid(cfg, s, NextState(cfg, s, controls), controls);
    SameLinks(cfg, s, NextState(cfg, s, controls), controls);
  }

  lemma LoadsEvolve(cfg: ArrayConfig, s: ArrayState, controls: Controls)
    requires s.Sized(cfg) && TilesRun(cfg, s, controls) && MemoryLegal(cfg, s, controls)
    ensures ShapeOfState(NextState(cfg, s, controls)).waiting == ShapeNext(cfg, ShapeOfState(s), controls).waiting
  {
    hide *;
    NextSized(cfg, s, controls);
    SizedKeys(cfg, s);
    SizedKeys(cfg, NextState(cfg, s, controls));
    forall t | t in s.pending
      ensures WaitingMatch(cfg, NextState(cfg, s, controls), s, controls, t)
    {
      PendingEvolves(cfg, s, controls, t);
    }
    SameWaiting(cfg, s, NextState(cfg, s, controls), controls);
  }

  /** After a legal cycle the shape is a function of the shape before and the controls. */
  lemma ShapeEvolves(cfg: ArrayConfig, s: ArrayState, controls: Controls)
    requires s.Sized(cfg) && cfg.Admits(controls)
    requires StructurallyLegal(cfg, s, controls) && MemoryLegal(cfg, s, controls)
    ensures ShapeOfState(NextState(cfg, s, controls)) == ShapeNext(cfg, ShapeOfState(s), controls)
  {
    hide *;
    RunsWhenLegal(cfg, s, controls);
    TilesEvolve(cfg, s, controls);
    LoadsEvolve(cfg, s, controls);
  }

  lemma RunsWhenLegal(cfg: ArrayConfig, s: ArrayState, controls: Controls)
    requires s.Sized(cfg) && StructurallyLegal(cfg, s, controls) && MemoryLegal(cfg, s, controls)
    ensures TilesRun(cfg, s, controls)
  {
    hide TileRuns, InScratch, ArrayState.Sized;
    TilesOnArray(cfg, s);
  }
}
