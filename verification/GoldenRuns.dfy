// Whole runs of the golden machine, and what loads return over them.

module GoldenRuns {
  import opened Wrappers
  import opened Mesh
  import opened Tile
  import opened GoldenArray

  type Controls = map<TileCoord, TileControl>

  /** How a run ends: still running, or stopped by the first illegal cycle. */
  datatype Outcome = Running(state: ArrayState) | StructuralError(at: nat) | MemoryError(at: nat)

  ghost function Execute(cfg: ArrayConfig, s: ArrayState, program: seq<Controls>): Outcome {
    if program == [] then Running(s)
    else
      var n := |program| - 1;
      match Execute(cfg, s, program[..n])
      case Running(t) =>
        if !StructurallyLegal(cfg, t, program[n]) then StructuralError(n)
        else if !MemoryLegal(cfg, t, program[n]) then MemoryError(n)
        else Running(NextState(cfg, t, program[n]))
      case error => error
  }

  ghost predicate AdmitsAll(cfg: ArrayConfig, program: seq<Controls>) {
    forall i :: 0 <= i < |program| ==> cfg.Admits(program[i])
  }

  // A legal cycle keeps every memory its size.
  lemma NextSized(cfg: ArrayConfig, s: ArrayState, controls: Controls)
    requires s.Sized(cfg)
    ensures NextState(cfg, s, controls).Sized(cfg)
  {
    hide EffectsAt, NextPending, NextScratch, Arrivals;
    SizesKept(cfg, s, AllEffects(s, controls));
  }

  lemma SizesKept(cfg: ArrayConfig, s: ArrayState, effects: map<TileCoord, TileEffects>)
    requires s.Sized(cfg) && effects.Keys == s.tiles.Keys
    ensures StateAfter(cfg, s, effects).Sized(cfg)
  {
    hide NextPending, Arrivals, NextScratch, Requests, DataOuts, PredOuts, Committed, TileState.Sized;
    var next := StateAfter(cfg, s, effects);
    forall t | t in next.tiles
      ensures next.tiles[t].Sized(cfg.dataDepth, cfg.predDepth, cfg.constDepth)
    {
      CommittedSized(s.tiles[t], effects[t], cfg.dataDepth, cfg.predDepth, cfg.constDepth);
    }
    ScratchKept(Requests(effects), s.scratch);
  }

  lemma CommittedSized(tile: TileState, effects: TileEffects, dataDepth: nat, predDepth: nat, constDepth: nat)
    requires tile.Sized(dataDepth, predDepth, constDepth)
    ensures Committed(tile, effects).Sized(dataDepth, predDepth, constDepth)
  {
  }

  lemma ScratchKept(requests: map<TileCoord, Option<Request>>, scratch: seq<Word>)
    ensures |NextScratch(requests, scratch)| == |scratch|
  {
  }

  lemma SizedKeys(cfg: ArrayConfig, s: ArrayState)
    requires s.Sized(cfg)
    ensures s.tiles.Keys == s.dataIn.Keys == s.predIn.Keys == cfg.Coords() && s.pending.Keys == cfg.lsu
    ensures cfg.lsu <= s.tiles.Keys
  {
  }

  // The next state, tile by tile.
  lemma NextTile(cfg: ArrayConfig, s: ArrayState, controls: Controls, t: TileCoord)
    requires s.Sized(cfg) && t in s.tiles
    ensures var next := NextState(cfg, s, controls);
      && t in next.tiles && t in next.dataIn && t in next.predIn
      && next.tiles[t] == Committed(s.tiles[t], EffectsAt(s, controls, t))
      && next.dataIn[t] == Arrivals(cfg.rows, cfg.cols, DataOuts(AllEffects(s, controls)), t)
      && next.predIn[t] == Arrivals(cfg.rows, cfg.cols, PredOuts(AllEffects(s, controls)), t)
  {
    hide NextPending, NextScratch, Arrivals, Committed, EffectsAt, DataOuts, PredOuts, Requests, ArrayState.Sized;
  }

  lemma {:induction false} RunSized(cfg: ArrayConfig, s: ArrayState, program: seq<Controls>)
    requires s.Sized(cfg)
    ensures Execute(cfg, s, program).Running? ==>
      Execute(cfg, s, program).state.Sized(cfg) && Execute(cfg, s, program).state.cycle == s.cycle + |program|
  {
    if program != [] {
      hide StructurallyLegal, MemoryLegal, NextState, ArrayState.Sized;
      var n := |program| - 1;
      RunSized(cfg, s, program[..n]);
      if Execute(cfg, s, program[..n]).Running? {
        NextSized(cfg, Execute(cfg, s, program[..n]).state, program[n]);
        NextCycle(cfg, Execute(cfg, s, program[..n]).state, program[n]);
      }
    }
  }

  lemma NextCycle(cfg: ArrayConfig, s: ArrayState, controls: Controls)
    ensures NextState(cfg, s, controls).cycle == s.cycle + 1
  {
  }

  // A run split in two.
  lemma {:induction false} ExecuteConcat(cfg: ArrayConfig, s: ArrayState, a: seq<Controls>, b: seq<Controls>)
    ensures Execute(cfg, s, a).Running? ==>
      Execute(cfg, s, a + b) == match Execute(cfg, Execute(cfg, s, a).state, b)
        case Running(t) => Running(t)
        case StructuralError(at) => StructuralError(|a| + at)
        case MemoryError(at) => MemoryError(|a| + at)
    ensures !Execute(cfg, s, a).Running? ==> Execute(cfg, s, a + b) == Execute(cfg, s, a)
  {
    hide StructurallyLegal, MemoryLegal, NextState;
    if b == [] {
      assert a + b == a;
    } else {
      var n := |b| - 1;
      ExecuteConcat(cfg, s, a, b[..n]);
      assert (a + b)[..|a + b| - 1] == a + b[..n];
    }
  }

  /** Runs a program cycle by cycle, stopping at the first illegal one. */
  method Run(machine: MultiTileGolden, program: seq<Controls>) returns (ok: bool)
    requires machine.State().Sized(machine.cfg) && AdmitsAll(machine.cfg, program)
    modifies machine
    ensures ok <==> Execute(machine.cfg, old(machine.State()), program).Running?
    ensures ok ==> machine.State() == Execute(machine.cfg, old(machine.State()), program).state
  {
    hide StructurallyLegal, MemoryLegal, NextState, ArrayState.Sized, ArrayConfig.Admits;
    ghost var start := machine.State();
    for i := 0 to |program|
      invariant machine.State().Sized(machine.cfg)
      invariant Execute(machine.cfg, start, program[..i]) == Running(machine.State())
    {
      assert program[..i + 1][..i] == program[..i] && program[..i + 1][i] == program[i];
      ghost var s := machine.State();
      NextSized(machine.cfg, s, program[i]);
      var legal := machine.Step(program[i]);
      if !legal {
        StoppedForGood(machine.cfg, start, program, i + 1);
        return false;
      }
    }
    assert program[..|program|] == program;
    ok := true;
  }

  lemma StoppedForGood(cfg: ArrayConfig, s: ArrayState, program: seq<Controls>, i: nat)
    requires i <= |program| && !Execute(cfg, s, program[..i]).Running?
    ensures !Execute(cfg, s, program).Running?
  {
    assert program == program[..i] + program[i..];
    ExecuteConcat(cfg, s, program[..i], program[i..]);
  }

  // ----- Memory over a whole run -----

  // The successive states of a run that was legal throughout, starting with nothing outstanding.
  ghost predicate History(cfg: ArrayConfig, states: seq<ArrayState>, program: seq<Controls>) {
    && |states| == |program| + 1
    && states[0].Sized(cfg) && states[0].cycle == 0
    && (forall t :: t in states[0].pending ==> states[0].pending[t] == map[])
    && forall i :: 0 <= i < |program| ==>
         && TilesRun(cfg, states[i], program[i])
         && StructurallyLegal(cfg, states[i], program[i]) && MemoryLegal(cfg, states[i], program[i])
         && states[i + 1] == NextState(cfg, states[i], program[i])
  }

  // The word an address holds after a cycle, given the one before it.
  ghost function WordAfter(s: ArrayState, controls: Controls, address: nat, before: Word): Word {
    if t :| t in s.tiles && Stores(RequestAt(s, controls, t), address) then RequestAt(s, controls, t).value.data
    else before
  }

  // The word last stored at an address before cycle c, or the one it started with.
  ghost function LastStored(states: seq<ArrayState>, program: seq<Controls>, c: nat, address: nat): Word
    requires |states| == |program| + 1 && c <= |program| && address < |states[0].scratch|
  {
    if c == 0 then states[0].scratch[address]
    else WordAfter(states[c - 1], program[c - 1], address, LastStored(states, program, c - 1, address))
  }

  lemma {:induction false} HistorySized(cfg: ArrayConfig, states: seq<ArrayState>, program: seq<Controls>, c: nat)
    requires History(cfg, states, program) && c <= |program|
    ensures states[c].Sized(cfg) && states[c].cycle == c
  {
    hide ArrayState.Sized, TilesRun, StructurallyLegal, MemoryLegal, NextState;
    if c > 0 {
      HistorySized(cfg, states, program, c - 1);
      NextSized(cfg, states[c - 1], program[c - 1]);
      NextCycle(cfg, states[c - 1], program[c - 1]);
    }
  }

  // Memory always holds what was stored last.
  lemma {:induction false} MemoryHoldsLast(cfg: ArrayConfig, states: seq<ArrayState>, program: seq<Controls>, c: nat,
                                           address: nat)
    requires History(cfg, states, program) && c <= |program| && address < |states[0].scratch|
    ensures |states[c].scratch| == |states[0].scratch|
    ensures states[c].scratch[address] == LastStored(states, program, c, address)
  {
    hide History;
    HistorySized(cfg, states, program, c);
    StartSized(cfg, states, program);
    if c > 0 {
      hide ArrayState.Sized, MemoryLegal, NextState, WordAfter;
      MemoryHoldsLast(cfg, states, program, c - 1, address);
      HistoryStep(cfg, states, program, c - 1);
      MemoryStep(cfg, states[c - 1], program[c - 1], address);
    }
  }

  lemma StartSized(cfg: ArrayConfig, states: seq<ArrayState>, program: seq<Controls>)
    requires History(cfg, states, program)
    ensures |states| == |program| + 1 && states[0].Sized(cfg) && states[0].cycle == 0
    ensures forall t :: t in states[0].pending ==> states[0].pending[t] == map[]
  {
  }

  lemma HistoryStep(cfg: ArrayConfig, states: seq<ArrayState>, program: seq<Controls>, c: nat)
    requires History(cfg, states, program) && c < |program|
    ensures states[c].Sized(cfg) && states[c].cycle == c && TilesRun(cfg, states[c], program[c])
    ensures StructurallyLegal(cfg, states[c], program[c]) && MemoryLegal(cfg, states[c], program[c])
    ensures states[c + 1] == NextState(cfg, states[c], program[c])
  {
    hide ArrayState.Sized, TilesRun, StructurallyLegal, MemoryLegal, NextState;
    HistorySized(cfg, states, program, c);
  }

  // One legal cycle changes an address exactly as the one store to it says.
  lemma MemoryStep(cfg: ArrayConfig, s: ArrayState, controls: Controls, address: nat)
    requires s.Sized(cfg) && address < |s.scratch|
    ensures |NextState(cfg, s, controls).scratch| == |s.scratch|
    ensures MemoryLegal(cfg, s, controls) ==>
      NextState(cfg, s, controls).scratch[address] == WordAfter(s, controls, address, s.scratch[address])
  {
    hide ArrayState.Sized, RequestAt, MemoryLegal, AllEffects, Requests, NextState, StoredWord, WordAfter;
    var requests := Requests(AllEffects(s, controls));
    EffectsMatch(s, controls, AllEffects(s, controls));
    ScratchIs(cfg, s, controls);
    if MemoryLegal(cfg, s, controls) {
      SoleStore(cfg, s, controls, address);
      SameWord(s, controls, requests, address);
    }
  }

  lemma ScratchIs(cfg: ArrayConfig, s: ArrayState, controls: Controls)
    ensures NextState(cfg, s, controls).scratch == NextScratch(Requests(AllEffects(s, controls)), s.scratch)
  {
  }

  // No two tiles store to one address in a legal cycle.
  ghost predicate StoredOnce(s: ArrayState, controls: Controls, address: nat) {
    forall t, u :: (t in s.tiles && u in s.tiles && Stores(RequestAt(s, controls, t), address) &&
                    Stores(RequestAt(s, controls, u), address)) ==> t == u
  }

  lemma SoleStore(cfg: ArrayConfig, s: ArrayState, controls: Controls, address: nat)
    requires s.Sized(cfg) && MemoryLegal(cfg, s, controls)
    ensures StoredOnce(s, controls, address)
  {
    hide ArrayState.Sized, RequestAt, InScratch, Compatible;
    TilesOnArray(cfg, s);
    forall t, u | t in s.tiles && u in s.tiles && t != u
      ensures !(Stores(RequestAt(s, controls, t), address) && Stores(RequestAt(s, controls, u), address))
    {
      assert Compatible(RequestAt(s, controls, t), RequestAt(s, controls, u));
      NotBoth(RequestAt(s, controls, t), RequestAt(s, controls, u), address);
    }
  }

  lemma NotBoth(a: Option<Request>, b: Option<Request>, address: nat)
    requires Compatible(a, b)
    ensures !(Stores(a, address) && Stores(b, address))
  {
  }

  lemma SameWord(s: ArrayState, controls: Controls, requests: map<TileCoord, Option<Request>>, address: nat)
    requires address < |s.scratch| && StoredOnce(s, controls, address)
    requires requests.Keys == s.tiles.Keys && forall t :: t in requests ==> requests[t] == RequestAt(s, controls, t)
    ensures StoredWord(requests, s.scratch, address) == WordAfter(s, controls, address, s.scratch[address])
  {
    hide RequestAt;
  }

  // ----- What loads return -----

  // Tile t issues a load in cycle i.
  ghost predicate LoadsAt(states: seq<ArrayState>, program: seq<Controls>, i: nat, t: TileCoord)
    requires |states| == |program| + 1 && i < |program|
  {
    RequestAt(states[i], program[i], t).Some? && RequestAt(states[i], program[i], t).value.LoadRequest?
  }

  lemma PendingStep(cfg: ArrayConfig, s: ArrayState, controls: Controls, t: TileCoord)
    requires s.Sized(cfg) && t in cfg.lsu
    ensures t in s.pending && t in NextState(cfg, s, controls).pending
    ensures NextState(cfg, s, controls).pending[t] ==
            NextPending(s.pending[t], s.cycle, cfg.loadLatency, RequestAt(s, controls, t), s.scratch)
  {
    hide RequestAt, EffectsAt, NextPending, NextScratch, Arrivals, Committed;
    RequestIsEffect(s, controls, t);
  }

  // A load of a legal cycle reads an existing word.
  lemma LoadInRange(cfg: ArrayConfig, s: ArrayState, controls: Controls, t: TileCoord)
    requires s.Sized(cfg) && MemoryLegal(cfg, s, controls) && t in cfg.lsu
    ensures RequestAt(s, controls, t).Some? ==> RequestAt(s, controls, t).value.address < |s.scratch|
  {
    hide RequestAt, Compatible, InScratch;
    if RequestAt(s, controls, t).Some? {
      RequestInRange(cfg, s, controls, t);
    }
  }

  // What is outstanding in cycle c: the loads issued within the latency, each with the word it will bring.
  ghost predicate Outstanding(cfg: ArrayConfig, states: seq<ArrayState>, program: seq<Controls>, c: nat, t: TileCoord,
                              ready: nat)
    requires |states| == |program| + 1 && c <= |program|
  {
    && c <= ready < c + cfg.loadLatency && cfg.loadLatency <= ready
    && LoadsAt(states, program, ready - cfg.loadLatency, t)
  }

  // The load tile t issued in cycle i read `value`.
  ghost predicate Brings(states: seq<ArrayState>, program: seq<Controls>, i: int, t: TileCoord, value: Word)
    requires |states| == |program| + 1
  {
    0 <= i < |program| && LoadsAt(states, program, i, t) &&
    var address := RequestAt(states[i], program[i], t).value.address;
    address < |states[i].scratch| && value == states[i].scratch[address]
  }

  lemma {:induction false} PendingIsOutstanding(cfg: ArrayConfig, states: seq<ArrayState>, program: seq<Controls>, c: nat,
                                                t: TileCoord, ready: nat)
    requires History(cfg, states, program) && c <= |program| && t in cfg.lsu && 0 < cfg.loadLatency
    ensures t in states[c].pending
    ensures ready in states[c].pending[t] <==> Outstanding(cfg, states, program, c, t, ready)
    ensures ready in states[c].pending[t] ==>
      Brings(states, program, ready - cfg.loadLatency, t, states[c].pending[t][ready])
  {
    hide History, ArrayState.Sized, MemoryLegal, StructurallyLegal, NextState, RequestAt, TilesRun;
    HistorySized(cfg, states, program, c);
    StartSized(cfg, states, program);
    LsuPending(cfg, states[c], t);
    if c > 0 {
      PendingIsOutstanding(cfg, states, program, c - 1, t, ready);
      HistoryStep(cfg, states, program, c - 1);
      PendingStep(cfg, states[c - 1], program[c - 1], t);
      LoadInRange(cfg, states[c - 1], program[c - 1], t);
    }
  }

  lemma LsuPending(cfg: ArrayConfig, s: ArrayState, t: TileCoord)
    requires s.Sized(cfg) && t in cfg.lsu
    ensures t in s.pending
  {
  }

  // The load tile t issued in cycle i asked for the word `value` was last stored under.
  ghost predicate AnswersWith(states: seq<ArrayState>, program: seq<Controls>, i: int, t: TileCoord, value: Word)
    requires |states| == |program| + 1
  {
    0 <= i < |program| && LoadsAt(states, program, i, t) &&
    var address := RequestAt(states[i], program[i], t).value.address;
    address < |states[0].scratch| && value == LastStored(states, program, i, address)
  }

  /** A load issued in cycle i answers in cycle i + latency, and nothing else does, with the word stored last before i. */
  lemma LoadReturnsLast(cfg: ArrayConfig, states: seq<ArrayState>, program: seq<Controls>, cycle: nat, t: TileCoord)
    requires History(cfg, states, program) && cycle <= |program| && t in cfg.lsu && 0 < cfg.loadLatency
    ensures states[cycle].InputsAt(t).load.Some? <==>
      cfg.loadLatency <= cycle && LoadsAt(states, program, cycle - cfg.loadLatency, t)
    ensures states[cycle].InputsAt(t).load.Some? ==>
      AnswersWith(states, program, cycle - cfg.loadLatency, t, states[cycle].InputsAt(t).load.value)
  {
    hide History, RequestAt, LastStored, ArrayState.Sized;
    StartSized(cfg, states, program);
    HistorySized(cfg, states, program, cycle);
    PendingIsOutstanding(cfg, states, program, cycle, t, cycle);
    if states[cycle].InputsAt(t).load.Some? {
      var i := cycle - cfg.loadLatency;
      var address := RequestAt(states[i], program[i], t).value.address;
      ScratchConstant(cfg, states, program, i);
      MemoryHoldsLast(cfg, states, program, i, address);
    }
  }

  lemma ScratchConstant(cfg: ArrayConfig, states: seq<ArrayState>, program: seq<Controls>, i: nat)
    requires History(cfg, states, program) && i <= |program|
    ensures |states[i].scratch| == |states[0].scratch|
  {
    hide History;
    StartSized(cfg, states, program);
    HistorySized(cfg, states, program, i);
  }
}
