// Checking a whole program: the bounded window of a loop, its structural fixed point, and what a clean report means.

module ScheduleManifest {
  import opened Wrappers
  import opened Mesh
  import opened Tile
  import opened GoldenArray
  import opened GoldenRuns
  import opened Shapes
  import opened LoopShapes
  import opened Programs
  import opened ScheduleTile
  import opened ScheduleCheck
  import opened ScheduleCycle
  import ModuloArithmetic

  // ----- Structural snapshots -----

  /** What the checker compares between kernel passes: never values, only whether they exist. */
  datatype Snapshot = Snapshot(
    dataValid: map<TileCoord, seq<bool>>,
    predValid: map<TileCoord, seq<bool>>,
    pending: map<TileCoord, set<(int, bool)>>,
    dataIn: map<TileCoord, set<Direction>>,
    predIn: map<TileCoord, set<Direction>>,
    memory: seq<bool>)

  function PendingSnapshot(pending: map<nat, Option<Word>>, cycle: nat): set<(int, bool)> {
    set ready | ready in pending :: (ready - cycle, pending[ready].Some?)
  }

  function PendingSnapshots(pending: map<TileCoord, map<nat, Option<Word>>>, cycle: nat): map<TileCoord, set<(int, bool)>> {
    map t | t in pending :: PendingSnapshot(pending[t], cycle)
  }

  function StructuralSnapshot(c: CheckedArray, cycle: nat): Snapshot {
    Snapshot(map t | t in c.tiles :: c.tiles[t].dataValid,
             map t | t in c.tiles :: c.tiles[t].predValid,
             PendingSnapshots(c.pending, cycle),
             map t | t in c.dataIn :: c.dataIn[t].Keys,
             map t | t in c.predIn :: c.predIn[t].Keys,
             seq(|c.scratch|, i requires 0 <= i < |c.scratch| => c.scratch[i].Some?))
  }

  lemma InPendingSnapshot(pending: map<nat, Word>, cycle: nat, x: int, known: bool)
    ensures (x, known) in PendingSnapshot(LiftMap(pending), cycle) <==> known && x + cycle >= 0 && x + cycle in pending
  {
    if known && x + cycle >= 0 && x + cycle in pending {
      assert x + cycle in LiftMap(pending) && (x, known) == ((x + cycle) - cycle, LiftMap(pending)[x + cycle].Some?);
    }
  }

  // Fully known loads compare by their distance alone.
  lemma SamePending(a: map<nat, Word>, aCycle: nat, b: map<nat, Word>, bCycle: nat)
    requires aCycle > 0 && bCycle > 0
    ensures PendingSnapshot(LiftMap(a), aCycle - 1) == PendingSnapshot(LiftMap(b), bCycle - 1) <==>
            Relative(a, aCycle) == Relative(b, bCycle)
  {
    hide PendingSnapshot, Relative, LiftMap;
    var left, right := PendingSnapshot(LiftMap(a), aCycle - 1), PendingSnapshot(LiftMap(b), bCycle - 1);
    if left == right {
      forall x
        ensures x in Relative(a, aCycle) <==> x in Relative(b, bCycle)
      {
        InRelative(a, aCycle, x);
        InRelative(b, bCycle, x);
        InPendingSnapshot(a, aCycle - 1, x + 1, true);
        InPendingSnapshot(b, bCycle - 1, x + 1, true);
      }
    }
    if Relative(a, aCycle) == Relative(b, bCycle) {
      forall p: (int, bool)
        ensures p in left <==> p in right
      {
        InPendingSnapshot(a, aCycle - 1, p.0, p.1);
        InPendingSnapshot(b, bCycle - 1, p.0, p.1);
        InRelative(a, aCycle, p.0 - 1);
        InRelative(b, bCycle, p.0 - 1);
      }
    }
  }

  lemma ValidOfLift(tiles: map<TileCoord, TileState>)
    ensures (map t | t in LiftTiles(tiles) :: LiftTiles(tiles)[t].dataValid) == map t | t in tiles :: tiles[t].dataValid
    ensures (map t | t in LiftTiles(tiles) :: LiftTiles(tiles)[t].predValid) == map t | t in tiles :: tiles[t].predValid
  {
    hide ValidValues;
  }

  lemma KeysOfLift<V>(arrivals: map<TileCoord, map<Direction, V>>)
    ensures (map t | t in LiftMaps(arrivals) :: LiftMaps(arrivals)[t].Keys) == Keyed(arrivals)
  {
    forall t | t in arrivals
      ensures LiftMap(arrivals[t]).Keys == arrivals[t].Keys
    {
    }
  }

  // All but the loads of a snapshot can be read off the shape.
  lemma SnapshotFields(s: ArrayState, cycle: nat)
    ensures var snapshot := StructuralSnapshot(LiftState(s), cycle);
      && snapshot.dataValid == ShapeOfState(s).dataValid && snapshot.predValid == ShapeOfState(s).predValid
      && snapshot.dataIn == ShapeOfState(s).dataArrived && snapshot.predIn == ShapeOfState(s).predArrived
      && snapshot.pending == PendingSnapshots(LiftMaps(s.pending), cycle)
      && snapshot.memory == seq(|s.scratch|, i => true)
  {
    ValidOfLift(s.tiles);
    KeysOfLift(s.dataIn);
    KeysOfLift(s.predIn);
    hide LiftTiles, LiftMaps, Keyed, PendingSnapshots;
  }

  lemma SamePendings(a: map<TileCoord, map<nat, Word>>, aCycle: nat, b: map<TileCoord, map<nat, Word>>, bCycle: nat)
    requires aCycle > 0 && bCycle > 0 && a.Keys == b.Keys
    ensures PendingSnapshots(LiftMaps(a), aCycle - 1) == PendingSnapshots(LiftMaps(b), bCycle - 1) <==>
            (map t | t in a :: Relative(a[t], aCycle)) == map t | t in b :: Relative(b[t], bCycle)
  {
    LiftMapsAt(a);
    LiftMapsAt(b);
    hide LiftMaps, LiftMap, Relative, PendingSnapshot;
    var left, right := PendingSnapshots(LiftMaps(a), aCycle - 1), PendingSnapshots(LiftMaps(b), bCycle - 1);
    var first, second := map t | t in a :: Relative(a[t], aCycle), map t | t in b :: Relative(b[t], bCycle);
    forall t | t in a
      ensures left[t] == right[t] <==> first[t] == second[t]
    {
      SamePending(a[t], aCycle, b[t], bCycle);
    }
    if left == right {
      forall t | t in a
        ensures first[t] == second[t]
      {
        assert left[t] == right[t];
      }
    }
    if first == second {
      forall t | t in a
        ensures left[t] == right[t]
      {
        assert first[t] == second[t];
      }
    }
  }

  /** Between two states known in full, equal snapshots are equal shapes. */
  lemma SnapshotIsShape(cfg: ArrayConfig, a: ArrayState, b: ArrayState)
    requires a.Sized(cfg) && b.Sized(cfg) && a.cycle > 0 && b.cycle > 0
    ensures StructuralSnapshot(LiftState(a), a.cycle - 1) == StructuralSnapshot(LiftState(b), b.cycle - 1) <==>
            ShapeOfState(a) == ShapeOfState(b)
  {
    SnapshotFields(a, a.cycle - 1);
    SnapshotFields(b, b.cycle - 1);
    SizedKeys(cfg, a);
    SizedKeys(cfg, b);
    SamePendings(a.pending, a.cycle, b.pending, b.cycle);
    ScratchSized(cfg, a);
    ScratchSized(cfg, b);
    WaitingIs(a);
    WaitingIs(b);
    hide ShapeOfState, StructuralSnapshot, LiftState, PendingSnapshots, LiftMaps, Relative, ArrayState.Sized;
  }

  lemma WaitingIs(s: ArrayState)
    ensures ShapeOfState(s).waiting == map t | t in s.pending :: Relative(s.pending[t], s.cycle)
  {
  }

  // ----- Clean runs -----

  /** The golden run gets to the end and never routes a result the function unit does not give. */
  ghost predicate CleanRun(cfg: ArrayConfig, s: ArrayState, program: seq<Controls>) {
    Execute(cfg, s, program).Running? && forall j :: 0 <= j < |program| ==> AllStrict(cfg, program[j])
  }

  // The state before cycle i, as long as the run gets there.
  ghost function StateAt(cfg: ArrayConfig, s: ArrayState, program: seq<Controls>, i: nat): ArrayState
    requires i <= |program|
  {
    if Execute(cfg, s, program[..i]).Running? then Execute(cfg, s, program[..i]).state else s
  }

  lemma CleanStep(cfg: ArrayConfig, s: ArrayState, program: seq<Controls>, i: nat)
    requires i < |program| && s.Sized(cfg)
    ensures CleanRun(cfg, s, program[..i + 1]) <==>
      && CleanRun(cfg, s, program[..i])
      && StructurallyLegal(cfg, StateAt(cfg, s, program, i), program[i])
      && MemoryLegal(cfg, StateAt(cfg, s, program, i), program[i])
      && AllStrict(cfg, program[i])
    ensures CleanRun(cfg, s, program[..i + 1]) ==>
      StateAt(cfg, s, program, i + 1) == NextState(cfg, StateAt(cfg, s, program, i), program[i])
    ensures CleanRun(cfg, s, program[..i]) ==>
      StateAt(cfg, s, program, i).Sized(cfg) && StateAt(cfg, s, program, i).cycle == s.cycle + i
  {
    hide StructurallyLegal, MemoryLegal, NextState, AllStrict, ArrayState.Sized;
    assert program[..i + 1][..i] == program[..i] && program[..i + 1][i] == program[i];
    RunSized(cfg, s, program[..i]);
    var shorter, longer := program[..i], program[..i + 1];
    if CleanRun(cfg, s, longer) {
      forall j | 0 <= j < i
        ensures AllStrict(cfg, shorter[j])
      {
        assert longer[j] == shorter[j];
      }
    }
    if CleanRun(cfg, s, shorter) && AllStrict(cfg, program[i]) {
      forall j | 0 <= j < i + 1
        ensures AllStrict(cfg, longer[j])
      {
        assert j < i ==> longer[j] == shorter[j];
      }
    }
  }

  // ----- Kernel periods -----

  function PeriodEnd(loop: LoopDescriptor, k: nat): nat {
    loop.prologue + k * loop.ii
  }

  predicate EndsPeriod(loop: LoopDescriptor, periods: nat, cycle: nat)
    requires loop.Valid()
  {
    loop.prologue <= cycle < PeriodEnd(loop, periods) && (cycle - loop.prologue + 1) % loop.ii == 0
  }

  // Kernel passes completed before a cycle.
  function PeriodsDone(loop: LoopDescriptor, periods: nat, cycle: nat): (done: nat)
    requires loop.Valid()
    ensures done <= periods
  {
    if cycle < loop.prologue then 0 else Min(periods, (cycle - loop.prologue) / loop.ii)
  }

  lemma Quotients(x: nat, periods: nat, ii: nat)
    requires ii > 0
    ensures x < periods * ii ==> x / ii < periods
    ensures x >= periods * ii ==> x / ii >= periods
    ensures (x + 1) % ii == 0 ==> (x + 1) / ii == x / ii + 1 && x + 1 == (x / ii + 1) * ii
    ensures (x + 1) % ii != 0 ==> (x + 1) / ii == x / ii
  {
    var q, r := x / ii, x % ii;
    assert x == q * ii + r;
    if x < periods * ii && q >= periods {
      Product(periods, q, ii);
    }
    if x >= periods * ii && q < periods {
      Product(q + 1, periods, ii);
    }
    if r + 1 == ii {
      ModuloArithmetic.DivModUnique(x + 1, q + 1, 0, ii);
    } else {
      ModuloArithmetic.DivModUnique(x + 1, q, r + 1, ii);
    }
  }

  lemma Product(a: nat, b: nat, c: nat)
    requires a <= b
    ensures a * c <= b * c
  {
  }

  lemma PeriodStep(loop: LoopDescriptor, periods: nat, cycle: nat)
    requires loop.Valid()
    ensures EndsPeriod(loop, periods, cycle) ==>
      PeriodsDone(loop, periods, cycle + 1) == PeriodsDone(loop, periods, cycle) + 1 &&
      cycle + 1 == PeriodEnd(loop, PeriodsDone(loop, periods, cycle + 1))
    ensures !EndsPeriod(loop, periods, cycle) ==>
      PeriodsDone(loop, periods, cycle + 1) == PeriodsDone(loop, periods, cycle)
    ensures PeriodsDone(loop, periods, 0) == 0
    ensures cycle >= PeriodEnd(loop, periods) ==> PeriodsDone(loop, periods, cycle) == periods
  {
    if loop.prologue <= cycle {
      Quotients(cycle - loop.prologue, periods, loop.ii);
    }
  }

  // ----- The window -----

  ghost predicate AdmitsImage(cfg: ArrayConfig, image: Image) {
    forall t, pc :: t in image && pc in image[t] ==> InDepths(image[t][pc], cfg.dataDepth, cfg.predDepth, cfg.constDepth)
  }

  lemma ImageAdmits(cfg: ArrayConfig, image: Image, pcs: seq<nat>)
    requires AdmitsImage(cfg, image)
    ensures AdmitsAll(cfg, Fetch(image, pcs))
  {
    hide InDepths;
  }

  // Before every cycle of a clean run the checker knew the golden state in full.
  ghost predicate Traced(cfg: ArrayConfig, s: ArrayState, program: seq<Controls>, trace: seq<CheckedArray>) {
    forall i: nat :: i < |trace| <= |program| + 1 ==> trace[i] == LiftState(StateAt(cfg, s, program, i))
  }

  ghost function SnapshotAt(cfg: ArrayConfig, s: ArrayState, program: seq<Controls>, cycle: nat): Snapshot
    requires 0 < cycle <= |program|
  {
    StructuralSnapshot(LiftState(StateAt(cfg, s, program, cycle)), cycle - 1)
  }

  ghost predicate SnapshotsTaken(cfg: ArrayConfig, s: ArrayState, program: seq<Controls>, loop: LoopDescriptor,
                                 snapshots: seq<Snapshot>)
  {
    forall k: nat :: 0 < k <= |snapshots| && 0 < PeriodEnd(loop, k) <= |program| ==>
      snapshots[k - 1] == SnapshotAt(cfg, s, program, PeriodEnd(loop, k))
  }

  method CheckWindow(cfg: ArrayConfig, image: Image, start: CheckedArray, cycles: seq<(nat, nat)>,
                     loop: Option<LoopDescriptor>, periods: nat, ghost s: ArrayState, ghost pcs: seq<nat>)
    returns (found: seq<ScheduleDiagnostic>, snapshots: seq<Snapshot>, ghost trace: seq<CheckedArray>)
    requires cycles == Timed(pcs) && start.Sized(cfg) && Follows(cfg, start, 0, s) && AdmitsImage(cfg, image)
    requires loop.Some? ==> loop.value.Valid() && PeriodEnd(loop.value, periods) <= |pcs|
    ensures |found| == 0 <==> CleanRun(cfg, s, Fetch(image, pcs))
    ensures |trace| == |pcs| + 1 && (|found| == 0 ==> Traced(cfg, s, Fetch(image, pcs), trace))
    ensures loop.None? ==> snapshots == []
    ensures loop.Some? ==> |snapshots| == periods
    ensures loop.Some? && |found| == 0 ==> SnapshotsTaken(cfg, s, Fetch(image, pcs), loop.value, snapshots)
  {
    hide *;
    ghost var program := Fetch(image, pcs);
    var c := start;
    found, snapshots, trace := [], [], [start];
    FollowsParts(cfg, start, 0, s);
    Beginning(cfg, start, s, program, loop, periods);
    TimedAt(pcs);
    for i := 0 to |cycles|
      invariant c.Sized(cfg) && |trace| == i + 1
      invariant |found| == 0 <==> CleanRun(cfg, s, program[..i])
      invariant |found| == 0 ==> Follows(cfg, c, i, StateAt(cfg, s, program, i)) && Traced(cfg, s, program, trace)
      invariant loop.None? ==> snapshots == []
      invariant loop.Some? ==> |snapshots| == PeriodsDone(loop.value, periods, i)
      invariant loop.Some? && |found| == 0 ==> SnapshotsTaken(cfg, s, program, loop.value, snapshots)
    {
      var cycle, pc := cycles[i].0, cycles[i].1;
      ControlsAdmitted(cfg, image, pcs, i);
      CleanStep(cfg, s, program, i);
      var more;
      c, more := CheckCycle(cfg, c, ControlsAt(image, pc), cycle, StateAt(cfg, s, program, i));
      found := found + more;
      if |found| == 0 {
        StillFollows(cfg, c, s, program, i);
        TracedMore(cfg, s, program, trace, c);
      }
      trace := trace + [c];
      if loop.Some? {
        PeriodStep(loop.value, periods, cycle);
        if EndsPeriod(loop.value, periods, cycle) {
          if |found| == 0 {
            SnapshotsMore(cfg, s, program, loop.value, snapshots, c, i);
          }
          snapshots := snapshots + [StructuralSnapshot(c, cycle)];
        }
      }
    }
    assert program[..|program|] == program;
    if loop.Some? {
      PeriodStep(loop.value, periods, |cycles|);
    }
  }

  lemma TimedAt(pcs: seq<nat>)
    ensures |Timed(pcs)| == |pcs| && forall i :: 0 <= i < |pcs| ==> Timed(pcs)[i] == (i, pcs[i])
  {
  }

  lemma Beginning(cfg: ArrayConfig, start: CheckedArray, s: ArrayState, program: seq<Controls>, loop: Option<LoopDescriptor>,
                  periods: nat)
    requires Follows(cfg, start, 0, s) && (loop.Some? ==> loop.value.Valid())
    ensures CleanRun(cfg, s, program[..0]) && Follows(cfg, start, 0, StateAt(cfg, s, program, 0))
    ensures Traced(cfg, s, program, [start])
    ensures loop.Some? ==> PeriodsDone(loop.value, periods, 0) == 0 && SnapshotsTaken(cfg, s, program, loop.value, [])
  {
    hide LiftState, ArrayState.Sized;
    if loop.Some? {
      PeriodStep(loop.value, periods, 0);
    }
  }

  lemma ControlsAdmitted(cfg: ArrayConfig, image: Image, pcs: seq<nat>, i: nat)
    requires AdmitsImage(cfg, image) && i < |pcs|
    ensures cfg.Admits(ControlsAt(image, pcs[i])) && Fetch(image, pcs)[i] == ControlsAt(image, pcs[i])
  {
    hide InDepths;
  }

  lemma StillFollows(cfg: ArrayConfig, c: CheckedArray, s: ArrayState, program: seq<Controls>, i: nat)
    requires i < |program| && s.Sized(cfg) && s.cycle == 0 && CleanRun(cfg, s, program[..i + 1])
    requires c == LiftState(StateAt(cfg, s, program, i + 1))
    ensures Follows(cfg, c, i + 1, StateAt(cfg, s, program, i + 1))
  {
    hide StateAt, CleanRun, LiftState, ArrayState.Sized;
    if i + 1 < |program| {
      CleanStep(cfg, s, program, i + 1);
    } else {
      WholeRun(cfg, s, program);
    }
  }

  lemma WholeRun(cfg: ArrayConfig, s: ArrayState, program: seq<Controls>)
    requires s.Sized(cfg) && CleanRun(cfg, s, program[..|program|])
    ensures StateAt(cfg, s, program, |program|).Sized(cfg) && StateAt(cfg, s, program, |program|).cycle == s.cycle + |program|
  {
    hide ArrayState.Sized;
    assert program[..|program|] == program;
    RunSized(cfg, s, program);
  }

  lemma TracedMore(cfg: ArrayConfig, s: ArrayState, program: seq<Controls>, trace: seq<CheckedArray>, c: CheckedArray)
    requires |trace| <= |program| && Traced(cfg, s, program, trace) && c == LiftState(StateAt(cfg, s, program, |trace|))
    ensures Traced(cfg, s, program, trace + [c])
  {
    hide LiftState, StateAt;
  }

  lemma SnapshotsMore(cfg: ArrayConfig, s: ArrayState, program: seq<Controls>, loop: LoopDescriptor, snapshots: seq<Snapshot>,
                      c: CheckedArray, i: nat)
    requires i < |program| && SnapshotsTaken(cfg, s, program, loop, snapshots)
    requires i + 1 == PeriodEnd(loop, |snapshots| + 1) && c == LiftState(StateAt(cfg, s, program, i + 1))
    ensures SnapshotsTaken(cfg, s, program, loop, snapshots + [StructuralSnapshot(c, i)])
  {
    hide LiftState, StateAt, StructuralSnapshot, PeriodEnd;
  }

  // ----- Where both start -----

  function FreshTile(cfg: ArrayConfig, consts: map<nat, Word>): TileState {
    TileState(seq(cfg.dataDepth, i => 0), seq(cfg.dataDepth, i => false), seq(cfg.predDepth, i => false),
              seq(cfg.predDepth, i => false),
              seq(cfg.constDepth, i requires 0 <= i < cfg.constDepth => if i in consts then consts[i] else 0))
  }

  function FreshScratch(cfg: ArrayConfig, preload: map<nat, Word>): seq<Word> {
    seq(cfg.scratchDepth, i requires 0 <= i < cfg.scratchDepth => if i in preload then preload[i] else 0)
  }

  function ConstsAt(consts: map<TileCoord, map<nat, Word>>, t: TileCoord): map<nat, Word> {
    if t in consts then consts[t] else map[]
  }

  /** The golden array before the first cycle: constants and scratchpad loaded, nothing else valid. */
  ghost function Initial(cfg: ArrayConfig, consts: map<TileCoord, map<nat, Word>>, preload: map<nat, Word>): ArrayState {
    ArrayState(map t | t in cfg.Coords() :: FreshTile(cfg, ConstsAt(consts, t)), FreshScratch(cfg, preload),
               map t | t in cfg.lsu :: map[], map t | t in cfg.Coords() :: map[], map t | t in cfg.Coords() :: map[], 0)
  }

  function FreshChecked(cfg: ArrayConfig, consts: map<nat, Word>): CheckedTile {
    CheckedTile(seq(cfg.dataDepth, i => false), seq(cfg.dataDepth, i => None), seq(cfg.predDepth, i => false),
                seq(cfg.predDepth, i => None),
                seq(cfg.constDepth, i requires 0 <= i < cfg.constDepth => if i in consts then consts[i] else 0))
  }

  lemma FreshLifted(cfg: ArrayConfig, consts: map<nat, Word>)
    ensures FreshChecked(cfg, consts) == LiftTile(FreshTile(cfg, consts))
    ensures FreshTile(cfg, consts).Sized(cfg.dataDepth, cfg.predDepth, cfg.constDepth)
    ensures FreshChecked(cfg, consts).Sized(cfg.dataDepth, cfg.predDepth, cfg.constDepth)
  {
    var known, lifted := FreshChecked(cfg, consts), LiftTile(FreshTile(cfg, consts));
    assert known.dataValues == lifted.dataValues;
    assert known.predValues == lifted.predValues;
  }

  ghost predicate Sensible(cfg: ArrayConfig) {
    0 < cfg.dataDepth && 0 < cfg.predDepth && 0 < cfg.constDepth && cfg.Valid()
  }

  lemma InitialSized(cfg: ArrayConfig, consts: map<TileCoord, map<nat, Word>>, preload: map<nat, Word>)
    requires Sensible(cfg)
    ensures Initial(cfg, consts, preload).Sized(cfg)
  {
    hide FreshTile, TileState.Sized;
    forall t | t in cfg.Coords()
      ensures FreshTile(cfg, ConstsAt(consts, t)).Sized(cfg.dataDepth, cfg.predDepth, cfg.constDepth)
    {
      FreshLifted(cfg, ConstsAt(consts, t));
    }
  }

  method InitialChecked(cfg: ArrayConfig, consts: map<TileCoord, map<nat, Word>>, preload: map<nat, Word>)
    returns (c: CheckedArray)
    requires Sensible(cfg)
    ensures c.Sized(cfg) && Follows(cfg, c, 0, Initial(cfg, consts, preload))
  {
    hide *;
    var tiles: map<TileCoord, CheckedTile> := map[];
    for row := 0 to cfg.rows
      invariant forall t :: t in tiles <==> InArray(t, cfg.rows, cfg.cols) && t.row < row
      invariant forall t :: t in tiles ==> tiles[t] == FreshChecked(cfg, ConstsAt(consts, t))
    {
      for col := 0 to cfg.cols
        invariant forall t :: t in tiles <==> InArray(t, cfg.rows, cfg.cols) && (t.row < row || (t.row == row && t.col < col))
        invariant forall t :: t in tiles ==> tiles[t] == FreshChecked(cfg, ConstsAt(consts, t))
      {
        var t := TileCoord(row, col);
        InsideIs(t, cfg.rows, cfg.cols);
        tiles := tiles[t := FreshChecked(cfg, ConstsAt(consts, t))];
      }
      RowDone(cfg.rows, cfg.cols);
    }
    RowDone(cfg.rows, cfg.cols);
    c := CheckedArray(tiles, LiftSeq(FreshScratch(cfg, preload)), map t | t in cfg.lsu :: map[], map t | t in tiles :: map[],
                      map t | t in tiles :: map[]);
    InitialKnown(cfg, consts, preload, c);
  }

  lemma InsideIs(t: TileCoord, rows: nat, cols: nat)
    ensures InArray(t, rows, cols) <==> t.row < rows && t.col < cols
  {
  }

  lemma RowDone(rows: nat, cols: nat)
    ensures forall t :: InArray(t, rows, cols) ==> t.row < rows && t.col < cols
  {
  }

  lemma InitialTiles(cfg: ArrayConfig, consts: map<TileCoord, map<nat, Word>>, preload: map<nat, Word>,
                     tiles: map<TileCoord, CheckedTile>)
    requires forall t :: t in tiles <==> InArray(t, cfg.rows, cfg.cols)
    requires forall t :: t in tiles ==> tiles[t] == FreshChecked(cfg, ConstsAt(consts, t))
    ensures tiles.Keys == cfg.Coords() && tiles == LiftTiles(Initial(cfg, consts, preload).tiles)
    ensures forall t :: t in tiles ==> tiles[t].Sized(cfg.dataDepth, cfg.predDepth, cfg.constDepth)
  {
    hide FreshTile, FreshChecked, FreshScratch, LiftTile, CheckedTile.Sized, TileState.Sized, ConstsAt;
    var s := Initial(cfg, consts, preload);
    assert tiles.Keys == cfg.Coords();
    forall t | t in tiles
      ensures tiles[t] == LiftTile(s.tiles[t]) && tiles[t].Sized(cfg.dataDepth, cfg.predDepth, cfg.constDepth)
    {
      FreshLifted(cfg, ConstsAt(consts, t));
    }
    SameMap(tiles, LiftTiles(s.tiles));
  }

  lemma NothingAnywhere<K, V>(nothing: map<TileCoord, map<K, V>>)
    requires forall t :: t in nothing ==> nothing[t] == map[]
    ensures LiftMaps(nothing) == map t | t in nothing :: map[]
  {
  }

  lemma InitialRest(cfg: ArrayConfig, consts: map<TileCoord, map<nat, Word>>, preload: map<nat, Word>)
    ensures LiftMaps(Initial(cfg, consts, preload).pending) == map t | t in cfg.lsu :: map[]
    ensures LiftMaps(Initial(cfg, consts, preload).dataIn) == map t | t in cfg.Coords() :: map[]
    ensures LiftMaps(Initial(cfg, consts, preload).predIn) == map t | t in cfg.Coords() :: map[]
    ensures Initial(cfg, consts, preload).scratch == FreshScratch(cfg, preload) && Initial(cfg, consts, preload).cycle == 0
  {
    hide FreshTile, FreshScratch, ConstsAt, LiftMaps;
    NothingAnywhere(Initial(cfg, consts, preload).pending);
    NothingAnywhere(Initial(cfg, consts, preload).dataIn);
    NothingAnywhere(Initial(cfg, consts, preload).predIn);
  }

  lemma InitialKnown(cfg: ArrayConfig, consts: map<TileCoord, map<nat, Word>>, preload: map<nat, Word>, c: CheckedArray)
    requires Sensible(cfg) && forall t :: t in c.tiles <==> InArray(t, cfg.rows, cfg.cols)
    requires forall t :: t in c.tiles ==> c.tiles[t] == FreshChecked(cfg, ConstsAt(consts, t))
    requires c.scratch == LiftSeq(FreshScratch(cfg, preload)) && c.pending == map t | t in cfg.lsu :: map[]
    requires c.dataIn == (map t | t in c.tiles :: map[]) && c.predIn == map t | t in c.tiles :: map[]
    ensures c.Sized(cfg) && Follows(cfg, c, 0, Initial(cfg, consts, preload))
  {
    InitialSized(cfg, consts, preload);
    InitialTiles(cfg, consts, preload, c.tiles);
    InitialRest(cfg, consts, preload);
    ScratchLength(cfg, preload);
    hide Initial, FreshChecked, FreshScratch, LiftTiles, LiftMaps, LiftSeq, ArrayState.Sized, CheckedTile.Sized, ConstsAt;
  }

  lemma ScratchLength(cfg: ArrayConfig, preload: map<nat, Word>)
    ensures |LiftSeq(FreshScratch(cfg, preload))| == |FreshScratch(cfg, preload)| == cfg.scratchDepth
  {
  }
}
