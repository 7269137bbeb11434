// Programs as control memories with an optional hardware loop, and the cycles a run and its check go through.

module Programs {
  import opened Wrappers
  import opened Mesh
  import opened Tile
  import opened GoldenArray
  import opened GoldenRuns
  import opened LoopShapes
  import ModuloArithmetic

  /** A hardware loop: the kernel of `ii` control words runs `tripCount` times between prologue and epilogue. */
  datatype LoopDescriptor = LoopDescriptor(prologue: nat, ii: nat, tripCount: nat, epilogue: nat) {
    predicate Valid() {
      0 < ii && 0 < tripCount
    }
  }

  // Decoded control memories.
  type Image = map<TileCoord, map<nat, TileControl>>

  function ControlsAt(image: Image, pc: nat): Controls {
    map t | t in image && pc in image[t] :: image[t][pc]
  }

  function Fetch(image: Image, pcs: seq<nat>): (program: seq<Controls>)
    ensures |program| == |pcs|
  {
    seq(|pcs|, i requires 0 <= i < |pcs| => ControlsAt(image, pcs[i]))
  }

  function Range(start: nat, count: nat): (pcs: seq<nat>)
    ensures |pcs| == count
  {
    seq(count, i requires 0 <= i < count => start + i)
  }

  // The control addresses a loop goes through when its kernel runs so many times.
  function LoopPcs(loop: LoopDescriptor, times: nat): seq<nat> {
    LoopProgram(Range(0, loop.prologue), Range(loop.prologue, loop.ii), Range(loop.prologue + loop.ii, loop.epilogue), times)
  }

  function ProgramPcs(runCycles: nat, loop: Option<LoopDescriptor>): seq<nat> {
    if loop.Some? then LoopPcs(loop.value, loop.value.tripCount) else Range(0, runCycles)
  }

  lemma FetchConcat(image: Image, a: seq<nat>, b: seq<nat>)
    ensures Fetch(image, a + b) == Fetch(image, a) + Fetch(image, b)
  {
  }

  lemma {:induction false} FetchRepeat(image: Image, part: seq<nat>, times: nat)
    ensures Fetch(image, Repeat(part, times)) == Repeat(Fetch(image, part), times)
  {
    if times > 0 {
      FetchRepeat(image, part, times - 1);
      FetchConcat(image, Repeat(part, times - 1), part);
    }
  }

  // Fetching a loop is looping over what its phases fetch.
  lemma FetchLoop(image: Image, loop: LoopDescriptor, times: nat)
    ensures Fetch(image, LoopPcs(loop, times)) ==
            LoopProgram(Fetch(image, Range(0, loop.prologue)), Fetch(image, Range(loop.prologue, loop.ii)),
                        Fetch(image, Range(loop.prologue + loop.ii, loop.epilogue)), times)
  {
    hide Fetch, Range, Repeat;
    var kernel := Range(loop.prologue, loop.ii);
    FetchRepeat(image, kernel, times);
    FetchConcat(image, Range(0, loop.prologue), Repeat(kernel, times));
    FetchConcat(image, Range(0, loop.prologue) + Repeat(kernel, times), Range(loop.prologue + loop.ii, loop.epilogue));
  }

  /** What every tile fetches in a cycle is the control its memory holds at that cycle's address, if any. */
  lemma FetchesByAddress(image: Image, pcs: seq<nat>, cycle: nat)
    requires cycle < |pcs|
    ensures forall t :: t in Fetch(image, pcs)[cycle] <==> t in image && pcs[cycle] in image[t]
    ensures forall t :: t in image && pcs[cycle] in image[t] ==> Fetch(image, pcs)[cycle][t] == image[t][pcs[cycle]]
  {
    assert Fetch(image, pcs)[cycle] == ControlsAt(image, pcs[cycle]);
  }

  // ----- Every cycle's address -----

  // From the first word straight through.
  ghost predicate Straight(pcs: seq<nat>, count: nat) {
    |pcs| == count && forall c :: 0 <= c < |pcs| ==> pcs[c] == c
  }

  /** First the prologue's words, then the kernel's round and round, then those of the epilogue behind it. */
  ghost predicate GoesThrough(pcs: seq<nat>, loop: LoopDescriptor, times: nat)
    requires 0 < loop.ii
  {
    && |pcs| == loop.prologue + times * loop.ii + loop.epilogue
    && (forall c :: 0 <= c < loop.prologue ==> pcs[c] == c)
    && (forall c :: loop.prologue <= c < |pcs| - loop.epilogue ==> pcs[c] == loop.prologue + (c - loop.prologue) % loop.ii)
    && (forall c :: |pcs| - loop.epilogue <= c < |pcs| ==> pcs[c] == loop.prologue + loop.ii + c - (|pcs| - loop.epilogue))
  }

  lemma {:induction false} RepeatsByPosition<T>(part: seq<T>, times: nat)
    requires 0 < |part|
    ensures forall k :: 0 <= k < |Repeat(part, times)| ==> Repeat(part, times)[k] == part[k % |part|]
  {
    if times > 0 {
      RepeatsByPosition(part, times - 1);
      forall k | |Repeat(part, times - 1)| <= k < |Repeat(part, times)|
        ensures Repeat(part, times)[k] == part[k % |part|]
      {
        var offset := k - (times - 1) * |part|;
        assert |Repeat(part, times)| == (times - 1) * |part| + |part|;
        ModuloArithmetic.DivModUnique(k, times - 1, offset, |part|);
      }
    }
  }

  /** The loop's addresses, cycle by cycle. */
  lemma LoopGoesThrough(loop: LoopDescriptor, times: nat)
    requires 0 < loop.ii
    ensures GoesThrough(LoopPcs(loop, times), loop, times)
  {
    var prologue, kernel := Range(0, loop.prologue), Range(loop.prologue, loop.ii);
    var epilogue := Range(loop.prologue + loop.ii, loop.epilogue);
    var pcs := LoopPcs(loop, times);
    RepeatsByPosition(kernel, times);
    RangeCounts(0, loop.prologue);
    RangeCounts(loop.prologue, loop.ii);
    RangeCounts(loop.prologue + loop.ii, loop.epilogue);
    hide Range, Repeat;
    assert |pcs| - loop.epilogue == |prologue + Repeat(kernel, times)|;
    forall c | loop.prologue <= c < |pcs| - loop.epilogue
      ensures pcs[c] == loop.prologue + (c - loop.prologue) % loop.ii
    {
      assert pcs[c] == Repeat(kernel, times)[c - loop.prologue];
    }
    forall c | |pcs| - loop.epilogue <= c < |pcs|
      ensures pcs[c] == loop.prologue + loop.ii + c - (|pcs| - loop.epilogue)
    {
      assert pcs[c] == epilogue[c - |prologue + Repeat(kernel, times)|];
    }
  }

  ghost predicate CountsFrom(pcs: seq<nat>, start: nat) {
    forall k :: 0 <= k < |pcs| ==> pcs[k] == start + k
  }

  lemma RangeCounts(start: nat, count: nat)
    ensures CountsFrom(Range(start, count), start)
  {
  }

  lemma CountsStraight(pcs: seq<nat>)
    requires CountsFrom(pcs, 0)
    ensures Straight(pcs, |pcs|)
  {
  }

  // The steps of the golden run, one control address per cycle.
  method ManifestExecutionSteps(runCycles: nat, loop: Option<LoopDescriptor>) returns (steps: seq<nat>)
    ensures steps == ProgramPcs(runCycles, loop)
    ensures loop.None? ==> Straight(steps, runCycles)
    ensures loop.Some? && 0 < loop.value.ii ==> GoesThrough(steps, loop.value, loop.value.tripCount)
  {
    hide Straight, GoesThrough;
    RangeCounts(0, runCycles);
    CountsStraight(Range(0, runCycles));
    if loop.None? {
      return Range(0, runCycles);
    }
    if 0 < loop.value.ii {
      LoopGoesThrough(loop.value, loop.value.tripCount);
    }
    hide Range, Repeat;
    var kernel := Range(loop.value.prologue, loop.value.ii);
    steps := Range(0, loop.value.prologue);
    assert steps == steps + Repeat(kernel, 0);
    for iteration := 0 to loop.value.tripCount
      invariant steps == Range(0, loop.value.prologue) + Repeat(kernel, iteration)
    {
      LastPass(Range(0, loop.value.prologue), kernel, iteration + 1);
      steps := steps + kernel;
    }
    steps := steps + Range(loop.value.prologue + loop.value.ii, loop.value.epilogue);
  }

  function Max(a: nat, b: nat): nat {
    if a < b then b else a
  }

  function Min(a: nat, b: nat): nat {
    if a < b then a else b
  }

  // How many kernel passes the checker looks at.
  function ProofPeriods(loop: LoopDescriptor, hopLatency: nat, loadLatency: nat): nat
    requires loop.Valid()
  {
    Min(loop.tripCount, Max(3, 2 + (Max(hopLatency, loadLatency) + loop.ii - 1) / loop.ii))
  }

  // So many passes give every hop and load of one pass the time to arrive within the passes behind it.
  predicate OutlastsLatencies(periods: int, ii: nat, hopLatency: nat, loadLatency: nat) {
    periods >= 3 && (periods - 2) * ii >= hopLatency && (periods - 2) * ii >= loadLatency
  }

  /** The fewest passes that outlast both latencies, or all of them where there are no more. */
  ghost predicate FewestPeriods(periods: nat, loop: LoopDescriptor, hopLatency: nat, loadLatency: nat) {
    && periods <= loop.tripCount
    && (periods < loop.tripCount ==> OutlastsLatencies(periods, loop.ii, hopLatency, loadLatency))
    && forall fewer :: fewer < periods ==> !OutlastsLatencies(fewer, loop.ii, hopLatency, loadLatency)
  }

  // The quotient rounded up is the least factor that reaches a number.
  lemma RoundedUp(latency: nat, ii: nat, factor: int)
    requires 0 < ii
    ensures factor * ii >= latency <==> factor >= (latency + ii - 1) / ii
  {
    var least := (latency + ii - 1) / ii;
    assert least * ii + (latency + ii - 1) % ii == latency + ii - 1;
    if factor >= least {
      Widen(least, factor, ii);
    } else {
      Widen(factor, least - 1, ii);
      assert (least - 1) * ii == least * ii - ii;
    }
  }

  lemma Widen(few: int, many: int, ii: nat)
    requires few <= many
    ensures few * ii <= many * ii
  {
  }

  lemma PeriodsAreFewest(loop: LoopDescriptor, hopLatency: nat, loadLatency: nat)
    requires loop.Valid()
    ensures FewestPeriods(ProofPeriods(loop, hopLatency, loadLatency), loop, hopLatency, loadLatency)
  {
    var latency := Max(hopLatency, loadLatency);
    forall periods: int
      ensures OutlastsLatencies(periods, loop.ii, hopLatency, loadLatency) <==>
              periods >= Max(3, 2 + (latency + loop.ii - 1) / loop.ii)
    {
      RoundedUp(latency, loop.ii, periods - 2);
    }
    hide OutlastsLatencies;
  }

  function Timed(pcs: seq<nat>): seq<(nat, nat)> {
    seq(|pcs|, i requires 0 <= i < |pcs| => (i, pcs[i]))
  }

  function PcsOf(cycles: seq<(nat, nat)>): seq<nat> {
    seq(|cycles|, c requires 0 <= c < |cycles| => cycles[c].1)
  }

  lemma TimedBack(pcs: seq<nat>)
    ensures PcsOf(Timed(pcs)) == pcs
    ensures forall c :: 0 <= c < |Timed(pcs)| ==> Timed(pcs)[c].0 == c
  {
  }

  method AppendTimed(cycles: seq<(nat, nat)>, pcs: seq<nat>, ghost before: seq<nat>) returns (cycles': seq<(nat, nat)>)
    requires cycles == Timed(before)
    ensures cycles' == Timed(before + pcs)
  {
    cycles' := cycles;
    for i := 0 to |pcs|
      invariant cycles' == Timed(before + pcs[..i])
    {
      assert before + pcs[..i + 1] == before + pcs[..i] + [pcs[i]];
      cycles' := cycles' + [(|cycles'|, pcs[i])];
    }
    assert pcs[..|pcs|] == pcs;
  }

  /** The cycles to check, numbered from zero: all of them, or a bounded number of kernel passes. */
  method CheckCycles(runCycles: nat, loop: Option<LoopDescriptor>, hopLatency: nat, loadLatency: nat)
    returns (cycles: seq<(nat, nat)>, periods: nat)
    requires loop.Some? ==> loop.value.Valid()
    ensures loop.None? ==> cycles == Timed(Range(0, runCycles))
    ensures loop.Some? ==>
      periods == ProofPeriods(loop.value, hopLatency, loadLatency) && cycles == Timed(LoopPcs(loop.value, periods))
    ensures forall c :: 0 <= c < |cycles| ==> cycles[c].0 == c
    ensures loop.None? ==> Straight(PcsOf(cycles), runCycles)
    ensures loop.Some? ==>
      && FewestPeriods(periods, loop.value, hopLatency, loadLatency)
      && GoesThrough(PcsOf(cycles), loop.value, periods)
  {
    hide Straight, GoesThrough, FewestPeriods;
    periods := 0;
    RangeCounts(0, runCycles);
    CountsStraight(Range(0, runCycles));
    TimedBack(Range(0, runCycles));
    if loop.None? {
      cycles := AppendTimed([], Range(0, runCycles), []);
      assert [] + Range(0, runCycles) == Range(0, runCycles);
      return;
    }
    hide Timed, Range;
    var prologue, kernel := Range(0, loop.value.prologue), Range(loop.value.prologue, loop.value.ii);
    periods := ProofPeriods(loop.value, hopLatency, loadLatency);
    PeriodsAreFewest(loop.value, hopLatency, loadLatency);
    LoopGoesThrough(loop.value, periods);
    TimedBack(LoopPcs(loop.value, periods));
    TimedNothing();
    cycles := AppendTimed([], prologue, []);
    assert [] + prologue == prologue + Repeat(kernel, 0);
    for period := 0 to periods
      invariant cycles == Timed(prologue + Repeat(kernel, period))
    {
      LastPass(prologue, kernel, period + 1);
      cycles := AppendTimed(cycles, kernel, prologue + Repeat(kernel, period));
    }
    cycles := AppendTimed(cycles, Range(loop.value.prologue + loop.value.ii, loop.value.epilogue),
                          prologue + Repeat(kernel, periods));
  }

  lemma TimedNothing()
    ensures Timed([]) == []
  {
  }
}
