// The structural skeleton over whole runs, and over a loop kernel repeated any number of times.

module LoopShapes {
  import opened Wrappers
  import opened Mesh
  import opened Tile
  import opened GoldenArray
  import opened GoldenRuns
  import opened Shapes

  ghost function ShapeAfter(cfg: ArrayConfig, shape: ArrayShape, program: seq<Controls>): ArrayShape {
    if program == [] then shape
    else ShapeNext(cfg, ShapeAfter(cfg, shape, program[..|program| - 1]), program[|program| - 1])
  }

  // Every cycle of the program is structurally legal.
  ghost predicate ShapeHolds(cfg: ArrayConfig, shape: ArrayShape, program: seq<Controls>) {
    program != [] ==>
      ShapeHolds(cfg, shape, program[..|program| - 1]) &&
      ShapeLegal(cfg, ShapeAfter(cfg, shape, program[..|program| - 1]), program[|program| - 1])
  }

  /** A run gets past all structural checks exactly where its skeleton does, as long as memory is accessed legally. */
  lemma {:induction false} RunFollowsShape(cfg: ArrayConfig, s: ArrayState, program: seq<Controls>)
    requires s.Sized(cfg) && AdmitsAll(cfg, program)
    ensures Execute(cfg, s, program).Running? ==>
      ShapeHolds(cfg, ShapeOfState(s), program) &&
      ShapeOfState(Execute(cfg, s, program).state) == ShapeAfter(cfg, ShapeOfState(s), program)
    ensures Execute(cfg, s, program).StructuralError? ==> !ShapeHolds(cfg, ShapeOfState(s), program)
  {
    hide StructurallyLegal, MemoryLegal, NextState, ShapeNext, ShapeLegal, ShapeOfState, ArrayState.Sized, ArrayConfig.Admits;
    if program != [] {
      var n := |program| - 1;
      RunFollowsShape(cfg, s, program[..n]);
      var before := Execute(cfg, s, program[..n]);
      if before.Running? {
        RunSized(cfg, s, program[..n]);
        ShapeDecides(cfg, before.state, program[n]);
        if StructurallyLegal(cfg, before.state, program[n]) && MemoryLegal(cfg, before.state, program[n]) {
          ShapeEvolves(cfg, before.state, program[n]);
        }
      }
    }
  }

  lemma {:induction false} AfterConcat(cfg: ArrayConfig, shape: ArrayShape, a: seq<Controls>, b: seq<Controls>)
    ensures ShapeAfter(cfg, shape, a + b) == ShapeAfter(cfg, ShapeAfter(cfg, shape, a), b)
    ensures ShapeHolds(cfg, shape, a + b) <==>
      ShapeHolds(cfg, shape, a) && ShapeHolds(cfg, ShapeAfter(cfg, shape, a), b)
  {
    hide ShapeNext, ShapeLegal;
    if b == [] {
      assert a + b == a;
    } else {
      AfterConcat(cfg, shape, a, b[..|b| - 1]);
      assert (a + b)[..|a + b| - 1] == a + b[..|b| - 1];
    }
  }

  // ----- A kernel over and over -----

  function Repeat<T>(part: seq<T>, times: nat): (all: seq<T>)
    ensures |all| == times * |part|
  {
    if times == 0 then [] else Repeat(part, times - 1) + part
  }

  lemma {:induction false} RepeatFront<T>(part: seq<T>, times: nat)
    requires times > 0
    ensures Repeat(part, times) == part + Repeat(part, times - 1)
  {
    if times == 1 {
      assert [] + part == part + [];
    } else {
      RepeatFront(part, times - 1);
      assert part + Repeat(part, times - 2) + part == part + (Repeat(part, times - 2) + part);
    }
  }

  lemma {:induction false} RepeatSum<T>(part: seq<T>, a: nat, b: nat)
    ensures Repeat(part, a + b) == Repeat(part, a) + Repeat(part, b)
  {
    if b == 0 {
      assert Repeat(part, a) + [] == Repeat(part, a);
    } else {
      RepeatSum(part, a, b - 1);
      assert Repeat(part, a) + Repeat(part, b - 1) + part == Repeat(part, a) + (Repeat(part, b - 1) + part);
    }
  }

  // A kernel that restores the shape can run for ever.
  lemma {:induction false} KernelForever(cfg: ArrayConfig, shape: ArrayShape, kernel: seq<Controls>, times: nat)
    requires ShapeAfter(cfg, shape, kernel) == shape && ShapeHolds(cfg, shape, kernel)
    ensures ShapeAfter(cfg, shape, Repeat(kernel, times)) == shape && ShapeHolds(cfg, shape, Repeat(kernel, times))
  {
    hide ShapeAfter, ShapeHolds;
    if times == 0 {
      NothingHappens(cfg, shape);
    } else {
      KernelForever(cfg, shape, kernel, times - 1);
      AfterConcat(cfg, shape, Repeat(kernel, times - 1), kernel);
    }
  }

  lemma NothingHappens(cfg: ArrayConfig, shape: ArrayShape)
    ensures ShapeAfter(cfg, shape, []) == shape && ShapeHolds(cfg, shape, [])
  {
  }

  function LoopProgram<T>(prologue: seq<T>, kernel: seq<T>, epilogue: seq<T>, times: nat): seq<T> {
    prologue + Repeat(kernel, times) + epilogue
  }

  /** A window whose last kernel pass restored the shape speaks for every longer run. */
  lemma WindowSpeaksForAll(cfg: ArrayConfig, shape: ArrayShape, prologue: seq<Controls>, kernel: seq<Controls>,
                           epilogue: seq<Controls>, periods: nat, times: nat)
    requires 1 <= periods <= times
    requires ShapeHolds(cfg, shape, LoopProgram(prologue, kernel, epilogue, periods))
    requires ShapeAfter(cfg, shape, prologue + Repeat(kernel, periods)) ==
             ShapeAfter(cfg, shape, prologue + Repeat(kernel, periods - 1))
    ensures ShapeHolds(cfg, shape, LoopProgram(prologue, kernel, epilogue, times))
    ensures ShapeAfter(cfg, shape, LoopProgram(prologue, kernel, epilogue, times)) ==
            ShapeAfter(cfg, shape, LoopProgram(prologue, kernel, epilogue, periods))
  {
    hide ShapeAfter, ShapeHolds, Repeat;
    var almost, body, all := prologue + Repeat(kernel, periods - 1), prologue + Repeat(kernel, periods), prologue + Repeat(kernel, times);
    var more := times - periods + 1;
    LastPass(prologue, kernel, periods);
    AfterConcat(cfg, shape, almost, kernel);
    AfterConcat(cfg, shape, body, epilogue);
    KernelForever(cfg, ShapeAfter(cfg, shape, almost), kernel, more);
    RepeatSum(kernel, periods - 1, more);
    assert all == almost + Repeat(kernel, more);
    AfterConcat(cfg, shape, almost, Repeat(kernel, more));
    AfterConcat(cfg, shape, all, epilogue);
  }

  // It speaks for a shorter run too, if the kernel passes left out at the end would not have changed the shape.
  lemma WindowSpeaksForFewer(cfg: ArrayConfig, shape: ArrayShape, prologue: seq<Controls>, kernel: seq<Controls>,
                             epilogue: seq<Controls>, periods: nat, times: nat)
    requires times <= periods && ShapeHolds(cfg, shape, LoopProgram(prologue, kernel, epilogue, periods))
    requires ShapeAfter(cfg, shape, prologue + Repeat(kernel, periods)) ==
             ShapeAfter(cfg, shape, prologue + Repeat(kernel, times))
    ensures ShapeHolds(cfg, shape, LoopProgram(prologue, kernel, epilogue, times))
  {
    hide ShapeAfter, ShapeHolds, Repeat;
    var body, all := prologue + Repeat(kernel, times), prologue + Repeat(kernel, periods);
    RepeatSum(kernel, times, periods - times);
    assert all == body + Repeat(kernel, periods - times);
    AfterConcat(cfg, shape, all, epilogue);
    AfterConcat(cfg, shape, body, Repeat(kernel, periods - times));
    AfterConcat(cfg, shape, body, epilogue);
  }

  lemma LastPass<T>(prologue: seq<T>, kernel: seq<T>, periods: nat)
    requires 1 <= periods
    ensures prologue + Repeat(kernel, periods) == prologue + Repeat(kernel, periods - 1) + kernel
  {
  }

  // ----- The kernel always restores the shape in the end -----

  ghost function WrittenData(program: seq<Controls>, t: TileCoord): set<nat> {
    if program == [] then {}
    else WrittenData(program[..|program| - 1], t) + DataWrites(ControlAt(program[|program| - 1], t))
  }

  ghost function WrittenPreds(program: seq<Controls>, t: TileCoord): set<nat> {
    if program == [] then {}
    else WrittenPreds(program[..|program| - 1], t) + PredWrites(ControlAt(program[|program| - 1], t))
  }

  lemma ValidTwice(valid: seq<bool>, a: set<nat>, b: set<nat>)
    ensures ValidAfter(ValidAfter(valid, a), b) == ValidAfter(valid, a + b)
  {
  }

  lemma {:induction false} ValidOverRun(cfg: ArrayConfig, shape: ArrayShape, program: seq<Controls>, t: TileCoord)
    ensures ShapeAfter(cfg, shape, program).dataValid.Keys == shape.dataValid.Keys
    ensures ShapeAfter(cfg, shape, program).predValid.Keys == shape.predValid.Keys
    ensures t in shape.dataValid ==>
      ShapeAfter(cfg, shape, program).dataValid[t] == ValidAfter(shape.dataValid[t], WrittenData(program, t))
    ensures t in shape.predValid ==>
      ShapeAfter(cfg, shape, program).predValid[t] == ValidAfter(shape.predValid[t], WrittenPreds(program, t))
  {
    hide ValidAfter, ArrivedAll, WaitingAfter, DataWrites, PredWrites, ControlAt, DataRoutesOf, PredRoutesOf;
    if program == [] {
      if t in shape.dataValid {
        NothingWritten(shape.dataValid[t]);
      }
      if t in shape.predValid {
        NothingWritten(shape.predValid[t]);
      }
    } else {
      var init, last := program[..|program| - 1], ControlAt(program[|program| - 1], t);
      ValidOverRun(cfg, shape, init, t);
      if t in shape.dataValid {
        ValidTwice(shape.dataValid[t], WrittenData(init, t), DataWrites(last));
      }
      if t in shape.predValid {
        ValidTwice(shape.predValid[t], WrittenPreds(init, t), PredWrites(last));
      }
    }
  }

  lemma NothingWritten(valid: seq<bool>)
    ensures ValidAfter(valid, {}) == valid
  {
  }

  lemma {:induction false} WrittenConcat(a: seq<Controls>, b: seq<Controls>, t: TileCoord)
    ensures WrittenData(a + b, t) == WrittenData(a, t) + WrittenData(b, t)
    ensures WrittenPreds(a + b, t) == WrittenPreds(a, t) + WrittenPreds(b, t)
  {
    if b == [] {
      assert a + b == a;
    } else {
      WrittenConcat(a, b[..|b| - 1], t);
      assert (a + b)[..|a + b| - 1] == a + b[..|b| - 1];
    }
  }

  // Repeating a kernel writes no more registers than one pass.
  lemma {:induction false} WrittenOnce(kernel: seq<Controls>, times: nat, t: TileCoord)
    requires times > 0
    ensures WrittenData(Repeat(kernel, times), t) == WrittenData(kernel, t)
    ensures WrittenPreds(Repeat(kernel, times), t) == WrittenPreds(kernel, t)
  {
    if times == 1 {
      assert Repeat(kernel, 1) == kernel;
    } else {
      WrittenOnce(kernel, times - 1, t);
      WrittenConcat(Repeat(kernel, times - 1), kernel, t);
    }
  }

  ghost predicate LoadsIn(program: seq<Controls>, i: int, t: TileCoord) {
    0 <= i < |program| && ControlAt(program[i], t).lsuOp == LsuLoad
  }

  // Loads outstanding are at most a latency away.
  ghost predicate Bounded(cfg: ArrayConfig, waiting: set<int>) {
    forall x :: x in waiting ==> 0 <= x < cfg.loadLatency
  }

  lemma WaitingStep(cfg: ArrayConfig, shape: ArrayShape, controls: Controls, t: TileCoord, x: int)
    requires t in shape.waiting
    ensures ShapeNext(cfg, shape, controls).waiting.Keys == shape.waiting.Keys
    ensures x in ShapeNext(cfg, shape, controls).waiting[t] <==>
      (x + 1 in shape.waiting[t] && x + 1 != 0) ||
      (ControlAt(controls, t).lsuOp == LsuLoad && x == cfg.loadLatency - 1)
  {
    hide ControlAt, ValidAfter, ArrivedAll, DataWrites, PredWrites, DataRoutesOf, PredRoutesOf, Shifted;
    InShifted(shape.waiting[t], x);
  }

  lemma LoadsInInit(program: seq<Controls>, i: int, t: TileCoord)
    requires program != []
    ensures LoadsIn(program, i, t) <==>
      LoadsIn(program[..|program| - 1], i, t) ||
      (i == |program| - 1 && ControlAt(program[|program| - 1], t).lsuOp == LsuLoad)
  {
    hide ControlAt;
  }

  // What is outstanding after a run: what was before and has not come yet, and what the run issued lately.
  lemma {:induction false} WaitingOverRun(cfg: ArrayConfig, shape: ArrayShape, program: seq<Controls>, t: TileCoord, x: int)
    requires t in shape.waiting && Bounded(cfg, shape.waiting[t]) && 0 < cfg.loadLatency
    ensures ShapeAfter(cfg, shape, program).waiting.Keys == shape.waiting.Keys
    ensures x in ShapeAfter(cfg, shape, program).waiting[t] <==>
      0 <= x < cfg.loadLatency &&
      (x + |program| in shape.waiting[t] || LoadsIn(program, x + |program| - cfg.loadLatency, t))
  {
    hide ControlAt, ShapeNext, LoadsIn;
    if program != [] {
      var init := program[..|program| - 1];
      WaitingOverRun(cfg, shape, init, t, x + 1);
      WaitingStep(cfg, ShapeAfter(cfg, shape, init), program[|program| - 1], t, x);
      LoadsInInit(program, x + |program| - cfg.loadLatency, t);
      NoLoad(init, x + |program| - cfg.loadLatency, t);
    } else {
      NoLoad(program, x - cfg.loadLatency, t);
    }
  }

  lemma NoLoad(program: seq<Controls>, i: int, t: TileCoord)
    ensures LoadsIn(program, i, t) ==> 0 <= i < |program|
  {
  }

  lemma LoadsInFront(a: seq<Controls>, b: seq<Controls>, i: int, t: TileCoord)
    requires 0 <= i
    ensures LoadsIn(a + b, |a| + i, t) <==> LoadsIn(b, i, t)
  {
  }

  lemma ArrivedAfterRun(cfg: ArrayConfig, shape: ArrayShape, program: seq<Controls>)
    requires program != []
    ensures ShapeAfter(cfg, shape, program).dataArrived ==
            ArrivedAll(cfg, DataRoutesOf(shape.dataValid.Keys, program[|program| - 1]))
    ensures ShapeAfter(cfg, shape, program).predArrived ==
            ArrivedAll(cfg, PredRoutesOf(shape.dataValid.Keys, program[|program| - 1]))
  {
    hide ValidAfter, WaitingAfter, ArrivedAll, DataWrites, PredWrites, DataRoutesOf, PredRoutesOf, ControlAt, ShapeAfter;
    var init := program[..|program| - 1];
    ValidOverRun(cfg, shape, init, TileCoord(0, 0));
    LastStep(cfg, shape, program);
  }

  lemma LastStep(cfg: ArrayConfig, shape: ArrayShape, program: seq<Controls>)
    requires program != []
    ensures ShapeAfter(cfg, shape, program) ==
            ShapeNext(cfg, ShapeAfter(cfg, shape, program[..|program| - 1]), program[|program| - 1])
  {
  }

  lemma SameValidAfter(cfg: ArrayConfig, shape: ArrayShape, a: seq<Controls>, b: seq<Controls>)
    requires forall t :: WrittenData(a, t) == WrittenData(b, t) && WrittenPreds(a, t) == WrittenPreds(b, t)
    ensures ShapeAfter(cfg, shape, a).dataValid == ShapeAfter(cfg, shape, b).dataValid
    ensures ShapeAfter(cfg, shape, a).predValid == ShapeAfter(cfg, shape, b).predValid
  {
    hide ShapeAfter, WrittenData, WrittenPreds, ValidAfter;
    forall t
      ensures ShapeAfter(cfg, shape, a).dataValid.Keys == ShapeAfter(cfg, shape, b).dataValid.Keys == shape.dataValid.Keys
      ensures ShapeAfter(cfg, shape, a).predValid.Keys == ShapeAfter(cfg, shape, b).predValid.Keys == shape.predValid.Keys
      ensures t in shape.dataValid ==> ShapeAfter(cfg, shape, a).dataValid[t] == ShapeAfter(cfg, shape, b).dataValid[t]
      ensures t in shape.predValid ==> ShapeAfter(cfg, shape, a).predValid[t] == ShapeAfter(cfg, shape, b).predValid[t]
    {
      assert WrittenData(a, t) == WrittenData(b, t);
      ValidOverRun(cfg, shape, a, t);
      ValidOverRun(cfg, shape, b, t);
    }
  }

  ghost predicate AllBounded(cfg: ArrayConfig, shape: ArrayShape) {
    forall t :: t in shape.waiting ==> Bounded(cfg, shape.waiting[t])
  }

  // A longer run with the same recent past leaves the same loads outstanding.
  lemma SameWaitingAfter(cfg: ArrayConfig, shape: ArrayShape, front: seq<Controls>, program: seq<Controls>)
    requires AllBounded(cfg, shape) && 0 < cfg.loadLatency <= |program|
    ensures ShapeAfter(cfg, shape, front + program).waiting == ShapeAfter(cfg, shape, program).waiting
  {
    hide ShapeAfter, LoadsIn;
    var longer, shorter := ShapeAfter(cfg, shape, front + program).waiting, ShapeAfter(cfg, shape, program).waiting;
    WaitingKeys(cfg, shape, program);
    WaitingKeys(cfg, shape, front + program);
    forall t | t in shape.waiting
      ensures longer[t] == shorter[t]
    {
      forall x: int
        ensures x in longer[t] <==> x in shorter[t]
      {
        WaitingOverRun(cfg, shape, program, t, x);
        WaitingOverRun(cfg, shape, front + program, t, x);
        if 0 <= x {
          LoadsInFront(front, program, x + |program| - cfg.loadLatency, t);
        }
      }
    }
  }

  lemma {:induction false} WaitingKeys(cfg: ArrayConfig, shape: ArrayShape, program: seq<Controls>)
    ensures ShapeAfter(cfg, shape, program).waiting.Keys == shape.waiting.Keys
  {
    hide ValidAfter, WaitingAfter, ArrivedAll, DataWrites, PredWrites, DataRoutesOf, PredRoutesOf, ControlAt;
    if program != [] {
      WaitingKeys(cfg, shape, program[..|program| - 1]);
    }
  }

  /** Once the kernel has run for a load latency, one more pass changes nothing about the shape. */
  lemma FixedPointReached(cfg: ArrayConfig, shape: ArrayShape, kernel: seq<Controls>, periods: nat)
    requires AllBounded(cfg, shape) && 0 < cfg.loadLatency <= periods * |kernel|
    ensures ShapeAfter(cfg, shape, Repeat(kernel, periods + 1)) == ShapeAfter(cfg, shape, Repeat(kernel, periods))
  {
    hide ShapeAfter, WrittenData, WrittenPreds, Repeat, ArrivedAll, DataRoutesOf, PredRoutesOf, AllBounded;
    var shorter, longer := Repeat(kernel, periods), Repeat(kernel, periods + 1);
    assert periods > 0 && |kernel| > 0;
    RepeatFront(kernel, periods + 1);
    forall t
      ensures WrittenData(longer, t) == WrittenData(shorter, t) && WrittenPreds(longer, t) == WrittenPreds(shorter, t)
    {
      WrittenOnce(kernel, periods, t);
      WrittenOnce(kernel, periods + 1, t);
    }
    SameValidAfter(cfg, shape, longer, shorter);
    ArrivedAfterRun(cfg, shape, longer);
    ArrivedAfterRun(cfg, shape, shorter);
    SameWaitingAfter(cfg, shape, kernel, shorter);
  }

  // And so do any number of further passes.
  lemma {:induction false} SettledForGood(cfg: ArrayConfig, shape: ArrayShape, kernel: seq<Controls>, periods: nat, more: nat)
    requires AllBounded(cfg, shape) && 0 < cfg.loadLatency <= periods * |kernel| && periods <= more
    ensures ShapeAfter(cfg, shape, Repeat(kernel, more)) == ShapeAfter(cfg, shape, Repeat(kernel, periods))
    decreases more
  {
    hide ShapeAfter, Repeat, AllBounded;
    if periods < more {
      SettledForGood(cfg, shape, kernel, periods, more - 1);
      MorePasses(|kernel|, periods, more - 1);
      FixedPointReached(cfg, shape, kernel, more - 1);
    }
  }

  lemma MorePasses(length: nat, fewer: nat, more: nat)
    requires fewer <= more
    ensures fewer * length <= more * length
  {
  }
}
