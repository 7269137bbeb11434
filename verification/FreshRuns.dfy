// What a run from the loaded array finds in its memory and its constants, cycle after cycle.

module FreshRuns {
  import opened Wrappers
  import opened Mesh
  import opened Tile
  import opened GoldenArray
  import opened GoldenRuns
  import opened ScheduleManifest

  // From one cycle up to another, no tile stores to the address.
  ghost predicate Unstored(states: seq<ArrayState>, program: seq<Controls>, from: nat, to: nat, address: nat)
    requires |states| == |program| + 1 && to <= |program|
  {
    forall c, t :: from <= c < to && t in states[c].tiles ==> !Stores(RequestAt(states[c], program[c], t), address)
  }

  lemma {:induction false} KeptWhileUnstored(states: seq<ArrayState>, program: seq<Controls>, from: nat, to: nat, address: nat)
    requires |states| == |program| + 1 && from <= to <= |program| && address < |states[0].scratch|
    requires Unstored(states, program, from, to, address)
    ensures LastStored(states, program, to, address) == LastStored(states, program, from, address)
  {
    hide Stores, RequestAt;
    if from < to {
      KeptWhileUnstored(states, program, from, to - 1, address);
    }
  }

  /** Until a tile stores to it, every word of the scratchpad is the one preloaded there, or zero. */
  lemma PreloadUntilStored(cfg: ArrayConfig, consts: map<TileCoord, map<nat, Word>>, preload: map<nat, Word>,
                           states: seq<ArrayState>, program: seq<Controls>, c: nat, address: nat)
    requires History(cfg, states, program) && states[0] == Initial(cfg, consts, preload)
    requires c <= |program| && address < cfg.scratchDepth && Unstored(states, program, 0, c, address)
    ensures address < |states[c].scratch|
    ensures address in preload ==> states[c].scratch[address] == preload[address]
    ensures address !in preload ==> states[c].scratch[address] == 0
  {
    hide History, Stores, RequestAt;
    StartSized(cfg, states, program);
    MemoryHoldsLast(cfg, states, program, c, address);
    KeptWhileUnstored(states, program, 0, c, address);
  }

  /** From the cycle after a store on, the word is the stored one until the next store to it. */
  lemma StoreIsKept(cfg: ArrayConfig, states: seq<ArrayState>, program: seq<Controls>, i: nat, t: TileCoord, c: nat,
                    address: nat)
    requires History(cfg, states, program) && i < c <= |program| && address < |states[0].scratch|
    requires t in states[i].tiles && Stores(RequestAt(states[i], program[i], t), address)
    requires Unstored(states, program, i + 1, c, address)
    ensures address < |states[c].scratch|
    ensures states[c].scratch[address] == RequestAt(states[i], program[i], t).value.data
  {
    hide History, RequestAt, ArrayState.Sized, TilesRun, StructurallyLegal, MemoryLegal, NextState;
    StartSized(cfg, states, program);
    MemoryHoldsLast(cfg, states, program, c, address);
    KeptWhileUnstored(states, program, i + 1, c, address);
    HistoryStep(cfg, states, program, i);
    SoleStore(cfg, states[i], program[i], address);
  }

  // ----- Constants and registers -----

  /** Any tiles of the array may have load/store units, and only such. */
  lemma UnitsAnywhere(cfg: ArrayConfig)
    ensures cfg.Valid() <==> forall t :: t in cfg.lsu ==> t.row < cfg.rows && t.col < cfg.cols
  {
    assert forall t :: t in cfg.Coords() <==> t.row < cfg.rows && t.col < cfg.cols by {
      forall t: TileCoord
        ensures t in cfg.Coords() <==> t.row < cfg.rows && t.col < cfg.cols
      {
        assert t == TileCoord(t.row, t.col);
      }
    }
  }

  lemma LoadedTile(cfg: ArrayConfig, consts: map<TileCoord, map<nat, Word>>, preload: map<nat, Word>, t: TileCoord)
    requires t in cfg.Coords()
    ensures t in Initial(cfg, consts, preload).tiles
    ensures Initial(cfg, consts, preload).tiles[t] == FreshTile(cfg, ConstsAt(consts, t))
  {
  }

  /** At first no register holds anything, nothing is under way, and constants not given are zero. */
  lemma NothingAtFirst(cfg: ArrayConfig, consts: map<TileCoord, map<nat, Word>>, preload: map<nat, Word>, t: TileCoord)
    requires t in cfg.Coords()
    ensures var s := Initial(cfg, consts, preload);
      && t in s.tiles && s.cycle == 0
      && (forall r :: 0 <= r < |s.tiles[t].dataValid| ==> !s.tiles[t].dataValid[r])
      && (forall r :: 0 <= r < |s.tiles[t].predValid| ==> !s.tiles[t].predValid[r])
      && |s.tiles[t].constMem| == cfg.constDepth
      && (forall k :: 0 <= k < cfg.constDepth && t in consts && k in consts[t] ==> s.tiles[t].constMem[k] == consts[t][k])
      && (forall k :: 0 <= k < cfg.constDepth && !(t in consts && k in consts[t]) ==> s.tiles[t].constMem[k] == 0)
      && t in s.dataIn && s.dataIn[t] == map[] && t in s.predIn && s.predIn[t] == map[]
      && (t in cfg.lsu ==> t in s.pending && s.pending[t] == map[])
  {
    LoadedTile(cfg, consts, preload, t);
  }

  lemma ConstantsStep(cfg: ArrayConfig, s: ArrayState, controls: Controls, t: TileCoord)
    requires t in s.tiles
    ensures t in NextState(cfg, s, controls).tiles
    ensures NextState(cfg, s, controls).tiles[t].constMem == s.tiles[t].constMem
  {
    hide EffectsAt, NextPending, NextScratch, Arrivals, Requests;
  }

  /** A tile's constants stay what they were loaded with. */
  lemma {:induction false} ConstantsStay(cfg: ArrayConfig, states: seq<ArrayState>, program: seq<Controls>, c: nat,
                                         t: TileCoord)
    requires History(cfg, states, program) && c <= |program| && t in states[0].tiles
    ensures t in states[c].tiles && states[c].tiles[t].constMem == states[0].tiles[t].constMem
  {
    hide History, NextState, ArrayState.Sized, TilesRun, StructurallyLegal, MemoryLegal;
    StartSized(cfg, states, program);
    if c > 0 {
      ConstantsStay(cfg, states, program, c - 1, t);
      HistoryStep(cfg, states, program, c - 1);
      ConstantsStep(cfg, states[c - 1], program[c - 1], t);
    }
  }
}
