// The schedule checker's cycle: all tiles, the shared memory and the links, seen with possibly unknown values.

module ScheduleCheck {
  import opened Wrappers
  import opened Mesh
  import opened Tile
  import opened GoldenArray
  import opened ScheduleTile

  type Controls = map<TileCoord, TileControl>

  datatype ScheduleDiagnostic = ScheduleDiagnostic(code: Code, cycle: Option<nat>, tile: Option<TileCoord>)

  datatype CheckedArray = CheckedArray(
    tiles: map<TileCoord, CheckedTile>,
    scratch: seq<Option<Word>>,
    pending: map<TileCoord, map<nat, Option<Word>>>,
    dataIn: map<TileCoord, map<Direction, Option<Word>>>,
    predIn: map<TileCoord, map<Direction, Option<bool>>>)
  {
    ghost predicate Sized(cfg: ArrayConfig) {
      && 0 < cfg.dataDepth && 0 < cfg.predDepth && 0 < cfg.constDepth && cfg.Valid()
      && tiles.Keys == cfg.Coords() && dataIn.Keys == cfg.Coords() && predIn.Keys == cfg.Coords()
      && pending.Keys == cfg.lsu
      && (forall t :: t in tiles ==> tiles[t].Sized(cfg.dataDepth, cfg.predDepth, cfg.constDepth))
      && |scratch| == cfg.scratchDepth
    }

    function GivenAt(t: TileCoord, cycle: nat): CheckedInputs {
      CheckedInputs(if t in dataIn then dataIn[t] else map[], if t in predIn then predIn[t] else map[],
                    if t in pending && cycle in pending[t] then Some(pending[t][cycle]) else None)
    }
  }

  // ----- Seeing the golden array -----

  function LiftMaps<T, K, V>(m: map<T, map<K, V>>): map<T, map<K, Option<V>>> {
    map t | t in m :: LiftMap(m[t])
  }

  function LiftState(s: ArrayState): CheckedArray {
    CheckedArray(LiftTiles(s.tiles), LiftSeq(s.scratch), LiftMaps(s.pending), LiftMaps(s.dataIn), LiftMaps(s.predIn))
  }

  function LiftTiles(tiles: map<TileCoord, TileState>): map<TileCoord, CheckedTile> {
    map t | t in tiles :: LiftTile(tiles[t])
  }

  /** The checker knows the state of the golden array before the cycle, in full. */
  ghost predicate Follows(cfg: ArrayConfig, c: CheckedArray, cycle: nat, s: ArrayState) {
    s.Sized(cfg) && s.cycle == cycle && c == LiftState(s)
  }

  ghost predicate AllStrict(cfg: ArrayConfig, controls: Controls) {
    forall t :: t in cfg.Coords() ==> Strict(ControlAt(controls, t))
  }

  // ----- Tiles -----

  lemma TileAdmits(cfg: ArrayConfig, c: CheckedArray, controls: Controls, t: TileCoord)
    requires c.Sized(cfg) && cfg.Admits(controls) && t in c.tiles
    ensures Admits(c.tiles[t], ControlAt(controls, t))
  {
  }

  lemma TileFollows(cfg: ArrayConfig, c: CheckedArray, controls: Controls, cycle: nat, t: TileCoord, s: ArrayState)
    requires Follows(cfg, c, cycle, s) && cfg.Admits(controls) && t in c.tiles
    ensures t in s.tiles && Agrees(c.tiles[t], c.GivenAt(t, cycle), ControlAt(controls, t), s.tiles[t], s.InputsAt(t))
    ensures Fits(s.tiles[t], ControlAt(controls, t))
  {
    hide LiftTile, LiftMap, Fits, ControlAt, LiftSeq, ArrayState.Sized, ArrayConfig.Admits;
    ControlFits(cfg, s, controls, t);
    SameInputs(c, cycle, t, s);
  }

  lemma SameInputs(c: CheckedArray, cycle: nat, t: TileCoord, s: ArrayState)
    requires s.cycle == cycle && c == LiftState(s)
    ensures c.GivenAt(t, cycle) == LiftInputs(s.InputsAt(t))
  {
    hide LiftTile, LiftSeq;
  }

  method CheckAt(cfg: ArrayConfig, c: CheckedArray, controls: Controls, cycle: nat, t: TileCoord, ghost s: ArrayState)
    returns (effects: CheckedEffects, codes: seq<Code>)
    requires c.Sized(cfg) && cfg.Admits(controls) && t in c.tiles
    ensures effects.request.Some? ==> t in cfg.lsu && effects.request.value.address < cfg.scratchDepth
    ensures Follows(cfg, c, cycle, s) ==>
      (|codes| == 0 <==> CleanAt(cfg, s, controls, t))
    ensures Follows(cfg, c, cycle, s) && |codes| == 0 ==> effects == LiftEffects(EffectsAt(s, controls, t))
  {
    hide Fits, TileLegal, AddressLegal, EffectsOf, ShapeOf, ControlAt, CheckedArray.Sized, ArrayConfig.Admits, Strict,
         LiftEffects, Follows, Agrees, Admits;
    TileAdmits(cfg, c, controls, t);
    ghost var tile: TileState, inputs: TileInputs := *, *;
    if Follows(cfg, c, cycle, s) {
      TileFollows(cfg, c, controls, cycle, t, s);
      tile, inputs := s.tiles[t], s.InputsAt(t);
    }
    effects, codes :=
      CheckTile(c.tiles[t], c.GivenAt(t, cycle), ControlAt(controls, t), t in cfg.lsu, cfg.scratchDepth, tile, inputs);
  }

  ghost predicate RequestsInRange<D>(cfg: ArrayConfig, effects: map<TileCoord, Effects<D, Option<bool>>>) {
    forall t :: t in effects && effects[t].request.Some? ==>
      t in cfg.lsu && effects[t].request.value.address < cfg.scratchDepth
  }

  function Report(codes: seq<Code>, cycle: nat, t: TileCoord): (found: seq<ScheduleDiagnostic>)
    ensures |found| == |codes|
  {
    seq(|codes|, i requires 0 <= i < |codes| => ScheduleDiagnostic(codes[i], Some(cycle), Some(t)))
  }

  ghost predicate CleanAt(cfg: ArrayConfig, s: ArrayState, controls: Controls, t: TileCoord) {
    TileRuns(cfg, s, controls, t) && InScratch(cfg, s, controls, t) && Strict(ControlAt(controls, t))
  }

  // What is known once some tiles have been checked.
  ghost predicate Checked(cfg: ArrayConfig, s: ArrayState, controls: Controls, effects: map<TileCoord, CheckedEffects>,
                          found: seq<ScheduleDiagnostic>)
  {
    && (|found| == 0 <==> forall t :: t in effects ==> CleanAt(cfg, s, controls, t))
    && (|found| == 0 ==> forall t :: t in effects ==> effects[t] == LiftEffects(EffectsAt(s, controls, t)))
  }

  lemma CheckedMore(cfg: ArrayConfig, s: ArrayState, controls: Controls, effects: map<TileCoord, CheckedEffects>,
                    found: seq<ScheduleDiagnostic>, t: TileCoord, tileEffects: CheckedEffects, more: seq<ScheduleDiagnostic>)
    requires Checked(cfg, s, controls, effects, found) && t !in effects
    requires |more| == 0 <==> CleanAt(cfg, s, controls, t)
    requires |more| == 0 ==> tileEffects == LiftEffects(EffectsAt(s, controls, t))
    ensures Checked(cfg, s, controls, effects[t := tileEffects], found + more)
  {
    hide CleanAt, LiftEffects, EffectsAt;
    assert t in effects[t := tileEffects];
    forall u | u in effects
      ensures u in effects[t := tileEffects]
    {
    }
  }

  lemma CleanEverywhere(cfg: ArrayConfig, s: ArrayState, controls: Controls)
    requires s.Sized(cfg)
    ensures (forall t :: t in s.tiles ==> CleanAt(cfg, s, controls, t)) <==>
      TilesRun(cfg, s, controls) && AllStrict(cfg, controls)
  {
    TilesOnArray(cfg, s);
    hide TileRuns, InScratch, ArrayState.Sized, Strict, ControlAt;
    if TilesRun(cfg, s, controls) && AllStrict(cfg, controls) {
      forall t | t in s.tiles
        ensures CleanAt(cfg, s, controls, t)
      {
        assert Strict(ControlAt(controls, t));
      }
    }
    if forall t :: t in s.tiles ==> CleanAt(cfg, s, controls, t) {
      forall t | t in cfg.Coords()
        ensures Strict(ControlAt(controls, t))
      {
        assert CleanAt(cfg, s, controls, t);
      }
      forall t | t in s.tiles
        ensures TileRuns(cfg, s, controls, t) && InScratch(cfg, s, controls, t)
      {
        assert CleanAt(cfg, s, controls, t);
      }
    }
  }

  lemma CheckedAll(cfg: ArrayConfig, s: ArrayState, controls: Controls, effects: map<TileCoord, CheckedEffects>,
                   found: seq<ScheduleDiagnostic>)
    requires s.Sized(cfg) && Checked(cfg, s, controls, effects, found) && effects.Keys == s.tiles.Keys
    ensures |found| == 0 <==> TilesRun(cfg, s, controls) && AllStrict(cfg, controls)
    ensures |found| == 0 ==> effects == LiftedEffects(s, controls)
  {
    CleanEverywhere(cfg, s, controls);
    LiftedAt(s, controls);
    hide CleanAt, EffectsAt, ArrayState.Sized, LiftEffects, TilesRun, AllStrict, LiftedEffects;
    if |found| == 0 {
      SameMap(effects, LiftedEffects(s, controls));
    }
  }

  lemma LiftedAt(s: ArrayState, controls: Controls)
    ensures LiftedEffects(s, controls).Keys == s.tiles.Keys
    ensures forall t :: t in s.tiles ==> LiftedEffects(s, controls)[t] == LiftEffects(EffectsAt(s, controls, t))
  {
    hide LiftEffects, EffectsAt;
  }

  lemma SameMap<K, V>(a: map<K, V>, b: map<K, V>)
    requires a.Keys == b.Keys && forall k :: k in a ==> a[k] == b[k]
    ensures a == b
  {
  }

  ghost function LiftedEffects(s: ArrayState, controls: Controls): map<TileCoord, CheckedEffects> {
    map t | t in s.tiles :: LiftEffects(EffectsAt(s, controls, t))
  }

  method CheckTiles(cfg: ArrayConfig, c: CheckedArray, controls: Controls, cycle: nat, ghost s: ArrayState)
    returns (effects: map<TileCoord, CheckedEffects>, found: seq<ScheduleDiagnostic>)
    requires c.Sized(cfg) && cfg.Admits(controls)
    ensures effects.Keys == c.tiles.Keys && RequestsInRange(cfg, effects)
    ensures Follows(cfg, c, cycle, s) ==> (|found| == 0 <==> TilesRun(cfg, s, controls) && AllStrict(cfg, controls))
    ensures Follows(cfg, c, cycle, s) && |found| == 0 ==> effects == LiftedEffects(s, controls)
  {
    hide TileRuns, InScratch, EffectsAt, CheckedArray.Sized, ArrayConfig.Admits, Follows, Strict, LiftEffects, Checked,
         LiftedEffects, TilesRun, AllStrict, CheckedArray.GivenAt, ControlAt;
    CheckedOnArray(cfg, c);
    effects, found := map[], [];
    NoneChecked(cfg, s, controls);
    for row := 0 to cfg.rows
      invariant forall t :: t in effects <==> t in c.tiles && t.row < row
      invariant RequestsInRange(cfg, effects)
      invariant Follows(cfg, c, cycle, s) ==> Checked(cfg, s, controls, effects, found)
    {
      for col := 0 to cfg.cols
        invariant forall t :: t in effects <==> t in c.tiles && (t.row < row || (t.row == row && t.col < col))
        invariant RequestsInRange(cfg, effects)
        invariant Follows(cfg, c, cycle, s) ==> Checked(cfg, s, controls, effects, found)
      {
        var t := TileCoord(row, col);
        var tileEffects, codes := CheckAt(cfg, c, controls, cycle, t, s);
        if Follows(cfg, c, cycle, s) {
          CheckedMore(cfg, s, controls, effects, found, t, tileEffects, Report(codes, cycle, t));
        }
        effects := effects[t := tileEffects];
        found := found + Report(codes, cycle, t);
      }
    }
    assert effects.Keys == c.tiles.Keys;
    if Follows(cfg, c, cycle, s) {
      FollowsKeys(cfg, c, cycle, s);
      CheckedAll(cfg, s, controls, effects, found);
    }
  }

  lemma NoneChecked(cfg: ArrayConfig, s: ArrayState, controls: Controls)
    ensures Checked(cfg, s, controls, map[], [])
  {
  }

  lemma CheckedOnArray(cfg: ArrayConfig, c: CheckedArray)
    requires c.Sized(cfg)
    ensures forall t :: t in c.tiles <==> InArray(t, cfg.rows, cfg.cols)
    ensures forall t :: t in cfg.Coords() <==> t in c.tiles
    ensures forall t :: t in c.pending <==> t in cfg.lsu
    ensures forall t :: t in c.pending ==> t in c.tiles
    ensures |c.scratch| == cfg.scratchDepth
  {
  }

  lemma FollowsKeys(cfg: ArrayConfig, c: CheckedArray, cycle: nat, s: ArrayState)
    requires Follows(cfg, c, cycle, s)
    ensures s.Sized(cfg) && c.tiles.Keys == s.tiles.Keys && c.pending.Keys == s.pending.Keys && |c.scratch| == |s.scratch|
  {
    hide ArrayState.Sized;
  }
}
