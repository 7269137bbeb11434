// The whole check of a program, and what an empty report promises about every run.

module ManifestCheck {
  import opened Wrappers
  import opened Mesh
  import opened Tile
  import opened GoldenArray
  import opened GoldenRuns
  import opened Shapes
  import opened LoopShapes
  import opened Programs
  import opened ScheduleTile
  import opened ScheduleCheck
  import opened ScheduleManifest
  import ModuloArithmetic

  // ----- Window arithmetic -----

  // Before the last pass the window has already run for a load latency.
  lemma WindowLongEnough(loop: LoopDescriptor, hopLatency: nat, loadLatency: nat)
    requires loop.Valid() && ProofPeriods(loop, hopLatency, loadLatency) < loop.tripCount
    ensures ProofPeriods(loop, hopLatency, loadLatency) >= 3
    ensures (ProofPeriods(loop, hopLatency, loadLatency) - 1) * loop.ii >= loadLatency
  {
    var latency, periods := Max(hopLatency, loadLatency), ProofPeriods(loop, hopLatency, loadLatency);
    var quotient := (latency + loop.ii - 1) / loop.ii;
    CeilCovers(latency, loop.ii);
    Product(quotient, periods - 1, loop.ii);
  }

  lemma CeilCovers(x: nat, n: nat)
    requires n > 0
    ensures (x + n - 1) / n * n >= x
  {
    var y := x + n - 1;
    assert y == y / n * n + y % n;
  }

  lemma LoopPrefix<T>(prologue: seq<T>, kernel: seq<T>, epilogue: seq<T>, times: nat, k: nat)
    requires k <= times
    ensures |prologue| + k * |kernel| <= |LoopProgram(prologue, kernel, epilogue, times)|
    ensures LoopProgram(prologue, kernel, epilogue, times)[..|prologue| + k * |kernel|] == prologue + Repeat(kernel, k)
  {
    hide Repeat;
    RepeatSum(kernel, k, times - k);
    assert |prologue + Repeat(kernel, k)| == |prologue| + k * |kernel|;
    assert LoopProgram(prologue, kernel, epilogue, times) ==
           prologue + Repeat(kernel, k) + (Repeat(kernel, times - k) + epilogue);
  }

  // ----- Shapes at the ends of kernel passes -----

  lemma {:induction false} CleanPrefix(cfg: ArrayConfig, s: ArrayState, program: seq<Controls>, i: nat)
    requires i <= |program| && CleanRun(cfg, s, program)
    ensures Execute(cfg, s, program[..i]).Running?
  {
    hide StructurallyLegal, MemoryLegal, NextState;
    assert program == program[..i] + program[i..];
    ExecuteConcat(cfg, s, program[..i], program[i..]);
  }

  lemma PrefixAdmitted(cfg: ArrayConfig, program: seq<Controls>, i: nat)
    requires i <= |program| && AdmitsAll(cfg, program)
    ensures AdmitsAll(cfg, program[..i])
  {
    hide ArrayConfig.Admits;
  }

  lemma ShapeAtCycle(cfg: ArrayConfig, s: ArrayState, program: seq<Controls>, i: nat)
    requires i <= |program| && s.Sized(cfg) && AdmitsAll(cfg, program) && CleanRun(cfg, s, program)
    ensures ShapeOfState(StateAt(cfg, s, program, i)) == ShapeAfter(cfg, ShapeOfState(s), program[..i])
    ensures StateAt(cfg, s, program, i).Sized(cfg) && StateAt(cfg, s, program, i).cycle == s.cycle + i
  {
    hide AdmitsAll, CleanRun, ShapeOfState, ShapeAfter, ShapeHolds, ArrayState.Sized;
    CleanPrefix(cfg, s, program, i);
    PrefixAdmitted(cfg, program, i);
    RunSized(cfg, s, program[..i]);
    RunFollowsShape(cfg, s, program[..i]);
  }

  // Two passes of the window leave equal snapshots exactly where they leave equal shapes.
  lemma SnapshotsCompareShapes(cfg: ArrayConfig, s: ArrayState, program: seq<Controls>, i: nat, j: nat)
    requires 0 < i <= |program| && 0 < j <= |program|
    requires s.Sized(cfg) && s.cycle == 0 && AdmitsAll(cfg, program) && CleanRun(cfg, s, program)
    ensures SnapshotAt(cfg, s, program, i) == SnapshotAt(cfg, s, program, j) <==>
            ShapeAfter(cfg, ShapeOfState(s), program[..i]) == ShapeAfter(cfg, ShapeOfState(s), program[..j])
  {
    hide AdmitsAll, CleanRun, ShapeOfState, ShapeAfter, StateAt, StructuralSnapshot, LiftState, ArrayState.Sized;
    ShapeAtCycle(cfg, s, program, i);
    ShapeAtCycle(cfg, s, program, j);
    SnapshotIsShape(cfg, StateAt(cfg, s, program, i), StateAt(cfg, s, program, j));
  }

  // The window's last two passes end in the same shape.
  ghost predicate Settles(cfg: ArrayConfig, shape: ArrayShape, image: Image, loop: LoopDescriptor, periods: nat)
    requires periods >= 2
  {
    var prologue, kernel := Fetch(image, Range(0, loop.prologue)), Fetch(image, Range(loop.prologue, loop.ii));
    ShapeAfter(cfg, shape, prologue + Repeat(kernel, periods)) ==
    ShapeAfter(cfg, shape, prologue + Repeat(kernel, periods - 1))
  }

  lemma PassesCompared(cfg: ArrayConfig, s: ArrayState, image: Image, loop: LoopDescriptor, periods: nat,
                       snapshots: seq<Snapshot>)
    requires loop.Valid() && periods >= 2 && |snapshots| == periods && AdmitsImage(cfg, image)
    requires s.Sized(cfg) && s.cycle == 0 && CleanRun(cfg, s, Fetch(image, LoopPcs(loop, periods)))
    requires SnapshotsTaken(cfg, s, Fetch(image, LoopPcs(loop, periods)), loop, snapshots)
    ensures snapshots[periods - 1] == snapshots[periods - 2] <==> Settles(cfg, ShapeOfState(s), image, loop, periods)
  {
    hide CleanRun, SnapshotAt, ShapeAfter, ShapeOfState, Fetch, Range, Repeat, LoopProgram, LoopPcs, ArrayState.Sized, AdmitsImage;
    var program := Fetch(image, LoopPcs(loop, periods));
    var prologue, kernel := Fetch(image, Range(0, loop.prologue)), Fetch(image, Range(loop.prologue, loop.ii));
    var epilogue := Fetch(image, Range(loop.prologue + loop.ii, loop.epilogue));
    FetchLoop(image, loop, periods);
    ImageAdmits(cfg, image, LoopPcs(loop, periods));
    LoopPrefix(prologue, kernel, epilogue, periods, periods);
    LoopPrefix(prologue, kernel, epilogue, periods, periods - 1);
    Product(1, periods - 1, loop.ii);
    var last, before := PeriodEnd(loop, periods), PeriodEnd(loop, periods - 1);
    assert 0 < before <= |program| && 0 < last <= |program|;
    SnapshotsCompareShapes(cfg, s, program, last, before);
  }

  // Nothing is outstanding at the start, so nothing outstanding is ever more than a latency away.
  lemma StartBounded(cfg: ArrayConfig, s: ArrayState, program: seq<Controls>)
    requires s.Sized(cfg) && (forall t :: t in s.pending ==> s.pending[t] == map[]) && 0 < cfg.loadLatency
    ensures AllBounded(cfg, ShapeAfter(cfg, ShapeOfState(s), program))
  {
    hide ShapeOfState, ShapeAfter, ArrayState.Sized, LoadsIn;
    var shape := ShapeOfState(s);
    NothingWaiting(s);
    WaitingKeys(cfg, shape, program);
    forall t, x: int | t in shape.waiting && x in ShapeAfter(cfg, shape, program).waiting[t]
      ensures 0 <= x < cfg.loadLatency
    {
      WaitingOverRun(cfg, shape, program, t, x);
    }
  }

  lemma NothingWaiting(s: ArrayState)
    requires forall t :: t in s.pending ==> s.pending[t] == map[]
    ensures forall t :: t in ShapeOfState(s).waiting ==> ShapeOfState(s).waiting[t] == {}
  {
    WaitingIs(s);
    hide ShapeOfState;
  }

  /** The window is long enough: its last kernel pass always restores the shape. */
  lemma WindowSettles(cfg: ArrayConfig, s: ArrayState, image: Image, loop: LoopDescriptor, hopLatency: nat)
    requires loop.Valid() && ProofPeriods(loop, hopLatency, cfg.loadLatency) < loop.tripCount
    requires s.Sized(cfg) && (forall t :: t in s.pending ==> s.pending[t] == map[]) && 0 < cfg.loadLatency
    ensures ProofPeriods(loop, hopLatency, cfg.loadLatency) >= 3
    ensures Settles(cfg, ShapeOfState(s), image, loop, ProofPeriods(loop, hopLatency, cfg.loadLatency))
  {
    hide ShapeAfter, ShapeOfState, Fetch, Range, Repeat, ArrayState.Sized, ProofPeriods, AllBounded;
    var periods, shape := ProofPeriods(loop, hopLatency, cfg.loadLatency), ShapeOfState(s);
    var prologue, kernel := Fetch(image, Range(0, loop.prologue)), Fetch(image, Range(loop.prologue, loop.ii));
    WindowLongEnough(loop, hopLatency, cfg.loadLatency);
    StartBounded(cfg, s, prologue);
    FixedPointReached(cfg, ShapeAfter(cfg, shape, prologue), kernel, periods - 1);
    AfterConcat(cfg, shape, prologue, Repeat(kernel, periods));
    AfterConcat(cfg, shape, prologue, Repeat(kernel, periods - 1));
  }

  /** A clean window that settles rules out structural errors for every longer trip count. */
  lemma WindowCoversLoop(cfg: ArrayConfig, s: ArrayState, image: Image, loop: LoopDescriptor, periods: nat, times: nat)
    requires loop.Valid() && 2 <= periods <= times && s.Sized(cfg) && AdmitsImage(cfg, image)
    requires CleanRun(cfg, s, Fetch(image, LoopPcs(loop, periods))) && Settles(cfg, ShapeOfState(s), image, loop, periods)
    ensures !Execute(cfg, s, Fetch(image, LoopPcs(loop, times))).StructuralError?
  {
    hide ShapeAfter, ShapeHolds, ShapeOfState, Fetch, Range, Repeat, LoopProgram, LoopPcs, Execute, ArrayState.Sized, AdmitsImage;
    var prologue, kernel := Fetch(image, Range(0, loop.prologue)), Fetch(image, Range(loop.prologue, loop.ii));
    var epilogue := Fetch(image, Range(loop.prologue + loop.ii, loop.epilogue));
    FetchLoop(image, loop, periods);
    FetchLoop(image, loop, times);
    ImageAdmits(cfg, image, LoopPcs(loop, periods));
    ImageAdmits(cfg, image, LoopPcs(loop, times));
    RunFollowsShape(cfg, s, Fetch(image, LoopPcs(loop, periods)));
    WindowSpeaksForAll(cfg, ShapeOfState(s), prologue, kernel, epilogue, periods, times);
    RunFollowsShape(cfg, s, Fetch(image, LoopPcs(loop, times)));
  }

  /** A clean window also speaks for every shorter loop whose kernel runs for a load latency. */
  lemma WindowCoversShorter(cfg: ArrayConfig, s: ArrayState, image: Image, loop: LoopDescriptor, periods: nat, times: nat)
    requires loop.Valid() && times <= periods && s.Sized(cfg) && AdmitsImage(cfg, image)
    requires (forall t :: t in s.pending ==> s.pending[t] == map[]) && 0 < cfg.loadLatency <= times * loop.ii
    requires CleanRun(cfg, s, Fetch(image, LoopPcs(loop, periods)))
    ensures !Execute(cfg, s, Fetch(image, LoopPcs(loop, times))).StructuralError?
  {
    hide ShapeAfter, ShapeHolds, ShapeOfState, Fetch, Range, Repeat, LoopProgram, LoopPcs, Execute, ArrayState.Sized, AdmitsImage,
         AllBounded;
    var prologue, kernel := Fetch(image, Range(0, loop.prologue)), Fetch(image, Range(loop.prologue, loop.ii));
    var epilogue := Fetch(image, Range(loop.prologue + loop.ii, loop.epilogue));
    var shape := ShapeOfState(s);
    FetchLoop(image, loop, periods);
    FetchLoop(image, loop, times);
    ImageAdmits(cfg, image, LoopPcs(loop, periods));
    ImageAdmits(cfg, image, LoopPcs(loop, times));
    RunFollowsShape(cfg, s, Fetch(image, LoopPcs(loop, periods)));
    StartBounded(cfg, s, prologue);
    SettledForGood(cfg, ShapeAfter(cfg, shape, prologue), kernel, times, periods);
    AfterConcat(cfg, shape, prologue, Repeat(kernel, periods));
    AfterConcat(cfg, shape, prologue, Repeat(kernel, times));
    WindowSpeaksForFewer(cfg, shape, prologue, kernel, epilogue, periods, times);
    RunFollowsShape(cfg, s, Fetch(image, LoopPcs(loop, times)));
  }

  // ----- The check -----

  // What the checker goes through: everything, or the bounded window of the loop.
  ghost function WindowPcs(cfg: ArrayConfig, hopLatency: nat, runCycles: nat, loop: Option<LoopDescriptor>): seq<nat>
    requires loop.Some? ==> loop.value.Valid()
  {
    if loop.Some? then LoopPcs(loop.value, ProofPeriods(loop.value, hopLatency, cfg.loadLatency)) else Range(0, runCycles)
  }

  ghost predicate NoStructuralError(cfg: ArrayConfig, s: ArrayState, image: Image, loop: LoopDescriptor, times: nat) {
    !Execute(cfg, s, Fetch(image, LoopPcs(loop, times))).StructuralError?
  }

  /**
   * An empty report means: the golden machine runs the checked cycles without an error, the checker knew its whole state
   * before each of them, and no run with at least as many kernel passes ever stops for a structural reason. Apart from
   * loads that take no time at all, nothing else makes the report empty.
   */
  method CheckManifest(cfg: ArrayConfig, hopLatency: nat, image: Image, consts: map<TileCoord, map<nat, Word>>,
                       preload: map<nat, Word>, runCycles: nat, loop: Option<LoopDescriptor>)
    returns (report: seq<ScheduleDiagnostic>, ghost trace: seq<CheckedArray>)
    requires Sensible(cfg) && AdmitsImage(cfg, image) && (loop.Some? ==> loop.value.Valid())
    ensures |report| == 0 ==>
      CleanRun(cfg, Initial(cfg, consts, preload), Fetch(image, WindowPcs(cfg, hopLatency, runCycles, loop)))
    ensures (0 < cfg.loadLatency || loop.None?) &&
            CleanRun(cfg, Initial(cfg, consts, preload), Fetch(image, WindowPcs(cfg, hopLatency, runCycles, loop))) ==>
      |report| == 0
    ensures |report| == 0 ==>
      |trace| == |WindowPcs(cfg, hopLatency, runCycles, loop)| + 1 &&
      Traced(cfg, Initial(cfg, consts, preload), Fetch(image, WindowPcs(cfg, hopLatency, runCycles, loop)), trace)
    ensures |report| == 0 && loop.Some? ==>
      NoStructuralError(cfg, Initial(cfg, consts, preload), image, loop.value, loop.value.tripCount)
    ensures |report| == 0 && loop.Some? && ProofPeriods(loop.value, hopLatency, cfg.loadLatency) < loop.value.tripCount ==>
      forall times: nat :: ProofPeriods(loop.value, hopLatency, cfg.loadLatency) <= times ==>
        NoStructuralError(cfg, Initial(cfg, consts, preload), image, loop.value, times)
    ensures |report| == 0 && loop.Some? && 0 < cfg.loadLatency ==>
      forall times: nat ::
        times <= ProofPeriods(loop.value, hopLatency, cfg.loadLatency) && cfg.loadLatency <= times * loop.value.ii ==>
          NoStructuralError(cfg, Initial(cfg, consts, preload), image, loop.value, times)
  {
    hide *;
    ghost var s := Initial(cfg, consts, preload);
    ghost var pcs := WindowPcs(cfg, hopLatency, runCycles, loop);
    var start := InitialChecked(cfg, consts, preload);
    StartFacts(cfg, consts, preload);
    var cycles, periods := CheckCycles(runCycles, loop, hopLatency, cfg.loadLatency);
    WindowFacts(cfg, hopLatency, runCycles, loop, periods);
    var snapshots;
    report, snapshots, trace := CheckWindow(cfg, image, start, cycles, loop, periods, s, pcs);
    if loop.Some? {
      if loop.value.tripCount > |snapshots| {
        WindowLongEnough(loop.value, hopLatency, cfg.loadLatency);
        if |report| == 0 {
          PassesCompared(cfg, s, image, loop.value, periods, snapshots);
          if 0 < cfg.loadLatency {
            WindowSettles(cfg, s, image, loop.value, hopLatency);
          }
        }
        if |snapshots| < 2 || snapshots[|snapshots| - 1] != snapshots[|snapshots| - 2] {
          report := report + [ScheduleDiagnostic(PeriodicUnproven, None, None)];
        }
        if |report| == 0 {
          forall times: nat | periods <= times
            ensures NoStructuralError(cfg, s, image, loop.value, times)
          {
            WindowCoversLoop(cfg, s, image, loop.value, periods, times);
            NoErrorIs(cfg, s, image, loop.value, times);
          }
        }
      } else if |report| == 0 {
        WholeLoop(cfg, s, image, loop.value);
      }
      if |report| == 0 && 0 < cfg.loadLatency {
        ShorterLoops(cfg, s, image, loop.value, periods);
      }
    }
  }

  lemma ShorterLoops(cfg: ArrayConfig, s: ArrayState, image: Image, loop: LoopDescriptor, periods: nat)
    requires loop.Valid() && s.Sized(cfg) && AdmitsImage(cfg, image) && 0 < cfg.loadLatency
    requires forall t :: t in s.pending ==> s.pending[t] == map[]
    requires CleanRun(cfg, s, Fetch(image, LoopPcs(loop, periods)))
    ensures forall times: nat :: times <= periods && cfg.loadLatency <= times * loop.ii ==>
      NoStructuralError(cfg, s, image, loop, times)
  {
    hide *;
    forall times: nat | times <= periods && cfg.loadLatency <= times * loop.ii
      ensures NoStructuralError(cfg, s, image, loop, times)
    {
      WindowCoversShorter(cfg, s, image, loop, periods, times);
      NoErrorIs(cfg, s, image, loop, times);
    }
  }

  lemma StartFacts(cfg: ArrayConfig, consts: map<TileCoord, map<nat, Word>>, preload: map<nat, Word>)
    requires Sensible(cfg)
    ensures var s := Initial(cfg, consts, preload);
      s.Sized(cfg) && s.cycle == 0 && forall t :: t in s.pending ==> s.pending[t] == map[]
  {
    InitialSized(cfg, consts, preload);
    hide FreshTile, FreshScratch, ArrayState.Sized;
  }

  lemma WindowFacts(cfg: ArrayConfig, hopLatency: nat, runCycles: nat, loop: Option<LoopDescriptor>, periods: nat)
    requires loop.Some? ==> loop.value.Valid() && periods == ProofPeriods(loop.value, hopLatency, cfg.loadLatency)
    ensures loop.None? ==> WindowPcs(cfg, hopLatency, runCycles, loop) == Range(0, runCycles)
    ensures loop.Some? ==> WindowPcs(cfg, hopLatency, runCycles, loop) == LoopPcs(loop.value, periods)
    ensures loop.Some? ==> PeriodEnd(loop.value, periods) <= |LoopPcs(loop.value, periods)| && periods <= loop.value.tripCount
  {
  }

  lemma NoErrorIs(cfg: ArrayConfig, s: ArrayState, image: Image, loop: LoopDescriptor, times: nat)
    ensures NoStructuralError(cfg, s, image, loop, times) <==>
      !Execute(cfg, s, Fetch(image, LoopPcs(loop, times))).StructuralError?
  {
  }

  // When the window is the whole loop, a clean window is a clean run.
  lemma WholeLoop(cfg: ArrayConfig, s: ArrayState, image: Image, loop: LoopDescriptor)
    requires CleanRun(cfg, s, Fetch(image, LoopPcs(loop, loop.tripCount)))
    ensures NoStructuralError(cfg, s, image, loop, loop.tripCount)
  {
    hide Execute, Fetch, LoopPcs;
  }
}
