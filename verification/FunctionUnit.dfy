// What the function unit computes: laws that leave no operation any other result, and the registers that hold it.

module FunctionUnit {
  import opened Wrappers
  import opened Mesh
  import opened Tile
  import ModuloArithmetic

  // The word an operation gives.
  function DataResult(op: FuOp, a: Word, b: Word, p0: bool, p1: bool): Word
    requires GivesData(op)
  {
    FuOutputs(op, a, b, p0, p1);
    ExecuteFu(op, a, b, p0, p1).data.value
  }

  function PredResult(op: FuOp, a: Word, b: Word, p0: bool, p1: bool): bool
    requires GivesPred(op)
  {
    FuOutputs(op, a, b, p0, p1);
    ExecuteFu(op, a, b, p0, p1).pred.value
  }

  const MAX_WORD: Word := 0xFFFF_FFFF

  // ----- Arithmetic -----

  /** Adding nothing changes nothing; adding one more gives the next word, after the last one zero again. */
  lemma AddCountsUp(a: Word, b: Word, p0: bool, p1: bool)
    ensures DataResult(ADD, a, 0, p0, p1) == a
    ensures b < MAX_WORD ==>
      var sum := DataResult(ADD, a, b, p0, p1);
      DataResult(ADD, a, b + 1, p0, p1) == if sum == MAX_WORD then 0 else sum + 1
  {
    var total := a + b;
    assert total < WORD_VALUES || WORD_VALUES <= total < 2 * WORD_VALUES;
  }

  lemma AddUndoesSub(a: Word, b: Word, p0: bool, p1: bool)
    ensures DataResult(ADD, DataResult(SUB, a, b, p0, p1), b, p0, p1) == a
  {
  }

  /** Multiplying is adding again and again. */
  lemma MulAddsRepeatedly(a: Word, b: Word, p0: bool, p1: bool)
    ensures DataResult(MUL, a, 0, p0, p1) == 0
    ensures b < MAX_WORD ==>
      DataResult(MUL, a, b + 1, p0, p1) == DataResult(ADD, DataResult(MUL, a, b, p0, p1), a, p0, p1)
  {
    assert a * (b + 1) == a * b + a;
    ModuloArithmetic.ReduceLeft(a * b, a, WORD_VALUES);
  }

  // ----- Bits -----

  function BitOf(x: nat, i: nat): nat {
    x / PowerOfTwo(i) % 2
  }

  lemma NextBit(x: nat, i: nat)
    ensures BitOf(x, 0) == x % 2 && BitOf(x, i + 1) == BitOf(x / 2, i)
  {
    var d := PowerOfTwo(i);
    assert PowerOfTwo(i + 1) == 2 * d;
    DivideTwice(x, d);
  }

  lemma DivideTwice(x: nat, d: nat)
    requires d > 0
    ensures x / (2 * d) == x / 2 / d
  {
    var q := x / 2 / d;
    var r := x / 2 - d * q;
    assert 0 <= r < d && x / 2 == q * d + r;
    assert x == q * (2 * d) + (2 * r + x % 2);
    ModuloArithmetic.DivModUnique(x, q, 2 * r + x % 2, 2 * d);
  }

  lemma {:induction false} BitwiseBit(combine: (bool, bool) -> bool, a: nat, b: nat, n: nat, i: nat)
    requires i < n
    ensures BitOf(Bitwise(combine, a, b, n), i) == if combine(BitOf(a, i) == 1, BitOf(b, i) == 1) then 1 else 0
  {
    var r := Bitwise(combine, a, b, n);
    var low := if combine(a % 2 == 1, b % 2 == 1) then 1 else 0;
    assert r == low + 2 * Bitwise(combine, a / 2, b / 2, n - 1);
    if i == 0 {
      NextBit(r, 0);
      NextBit(a, 0);
      NextBit(b, 0);
    } else {
      NextBit(r, i - 1);
      NextBit(a, i - 1);
      NextBit(b, i - 1);
      hide BitOf;
      assert r / 2 == Bitwise(combine, a / 2, b / 2, n - 1);
      BitwiseBit(combine, a / 2, b / 2, n - 1, i - 1);
    }
  }

  /** AND, OR and XOR work bit by bit. */
  lemma LogicIsBitwise(a: Word, b: Word, p0: bool, p1: bool, i: nat)
    requires i < 32
    ensures BitOf(DataResult(AND, a, b, p0, p1), i) == 1 <==> BitOf(a, i) == 1 && BitOf(b, i) == 1
    ensures BitOf(DataResult(OR, a, b, p0, p1), i) == 1 <==> BitOf(a, i) == 1 || BitOf(b, i) == 1
    ensures BitOf(DataResult(XOR, a, b, p0, p1), i) == 1 <==> BitOf(a, i) != BitOf(b, i)
  {
    BitwiseBit((x, y) => x && y, a, b, 32, i);
    BitwiseBit((x, y) => x || y, a, b, 32, i);
    BitwiseBit((x, y) => x != y, a, b, 32, i);
    hide Bitwise;
  }

  /** The bits make the word, so nothing else is left to say about it. */
  lemma {:induction false} BitsDecide(a: nat, b: nat, n: nat)
    requires a < PowerOfTwo(n) && b < PowerOfTwo(n) && forall i: nat :: i < n ==> BitOf(a, i) == BitOf(b, i)
    ensures a == b
  {
    if n > 0 {
      NextBit(a, 0);
      NextBit(b, 0);
      assert BitOf(a, 0) == BitOf(b, 0);
      forall i: nat | i < n - 1
        ensures BitOf(a / 2, i) == BitOf(b / 2, i)
      {
        NextBit(a, i);
        NextBit(b, i);
        assert BitOf(a, i + 1) == BitOf(b, i + 1);
      }
      hide BitOf;
      BitsDecide(a / 2, b / 2, n - 1);
    }
  }

  // ----- Shifts -----

  /** Shifting left doubles, once for each step; only the last five bits of the amount count. */
  lemma LeftShiftDoubles(a: Word, b: Word, p0: bool, p1: bool)
    ensures DataResult(SHL, a, 0, p0, p1) == a
    ensures DataResult(SHL, a, b, p0, p1) == DataResult(SHL, a, b % 32, p0, p1)
    ensures b < 31 ==>
      var once := DataResult(SHL, a, b, p0, p1);
      DataResult(SHL, a, b + 1, p0, p1) == DataResult(ADD, once, once, p0, p1)
  {
    LeftShiftIs(a, 0, p0, p1);
    LeftShiftIs(a, b, p0, p1);
    LeftShiftIs(a, b % 32, p0, p1);
    assert b < 31 ==> b + 1 < WORD_VALUES;
    hide *;
    NoneRaised(a);
    AmountsRepeat(b);
    if b < 31 {
      LeftShiftIs(a, b + 1, p0, p1);
      OneMoreRaised(a, b);
      SumIs(DataResult(SHL, a, b, p0, p1), p0, p1);
    }
  }

  lemma AmountsRepeat(b: nat)
    ensures 0 % 32 == 0 && b % 32 % 32 == b % 32
    ensures b < 31 ==> b % 32 == b && (b + 1) % 32 == b + 1
  {
  }

  function Raised(a: Word, n: nat): Word {
    Wrap(a * PowerOfTwo(n))
  }

  lemma NoneRaised(a: Word)
    ensures Raised(a, 0) == a
  {
    assert PowerOfTwo(0) == 1 && a * 1 == a;
  }

  lemma OneMoreRaised(a: Word, n: nat)
    ensures Raised(a, n + 1) == Wrap(Raised(a, n) + Raised(a, n))
  {
    var x := a * PowerOfTwo(n);
    assert a * PowerOfTwo(n + 1) == x + x;
    ModuloArithmetic.ReduceLeft(x, x, WORD_VALUES);
    ModuloArithmetic.ReduceRight(x % WORD_VALUES, x, WORD_VALUES);
  }

  lemma LeftShiftIs(a: Word, b: Word, p0: bool, p1: bool)
    ensures DataResult(SHL, a, b, p0, p1) == Raised(a, b % 32)
  {
    hide PowerOfTwo, Wrap;
  }

  lemma SumIs(x: Word, p0: bool, p1: bool)
    ensures DataResult(ADD, x, x, p0, p1) == Wrap(x + x)
  {
    hide Wrap;
  }

  /** Shifting right halves. */
  lemma RightShiftHalves(a: Word, b: Word, p0: bool, p1: bool)
    ensures DataResult(LSHR, a, 0, p0, p1) == a
    ensures DataResult(LSHR, a, b, p0, p1) == DataResult(LSHR, a, b % 32, p0, p1)
    ensures b < 31 ==> DataResult(LSHR, a, b + 1, p0, p1) == DataResult(LSHR, a, b, p0, p1) / 2
  {
    RightShiftIs(a, 0, p0, p1);
    RightShiftIs(a, b, p0, p1);
    RightShiftIs(a, b % 32, p0, p1);
    assert b < 31 ==> b + 1 < WORD_VALUES;
    hide *;
    NoneLowered(a);
    AmountsRepeat(b);
    if b < 31 {
      RightShiftIs(a, b + 1, p0, p1);
      OneMoreLowered(a, b);
    }
  }

  function Lowered(a: Word, n: nat): Word {
    ShrinksToWord(a, PowerOfTwo(n));
    a / PowerOfTwo(n)
  }

  lemma NoneLowered(a: Word)
    ensures Lowered(a, 0) == a
  {
    assert PowerOfTwo(0) == 1 && a / 1 == a;
  }

  lemma OneMoreLowered(a: Word, n: nat)
    ensures Lowered(a, n + 1) == Lowered(a, n) / 2
  {
    DivideThenHalve(a, PowerOfTwo(n));
  }

  lemma RightShiftIs(a: Word, b: Word, p0: bool, p1: bool)
    ensures DataResult(LSHR, a, b, p0, p1) == Lowered(a, b % 32)
  {
    hide PowerOfTwo, Wrap;
  }

  lemma DivideThenHalve(x: nat, d: nat)
    requires d > 0
    ensures x / (2 * d) == x / d / 2
  {
    var q, odd, r := x / d / 2, x / d % 2, x % d;
    HalfOf(q, odd, d, r);
    assert x == d * (x / d) + r && x / d == 2 * q + odd;
    ModuloArithmetic.DivModUnique(x, q, d * odd + r, 2 * d);
  }

  lemma HalfOf(q: nat, odd: nat, d: nat, r: nat)
    requires odd < 2 && r < d
    ensures d * (2 * q + odd) + r == q * (2 * d) + (d * odd + r)
    ensures d * odd + r < 2 * d
  {
  }

  // ----- Choice and comparison -----

  lemma SelectChooses(a: Word, b: Word, p1: bool)
    ensures DataResult(SELECT, a, b, true, p1) == a && DataResult(SELECT, a, b, false, p1) == b
    ensures DataResult(PASS, a, b, true, p1) == a && DataResult(PASS, a, b, false, p1) == a
  {
  }

  /** Words are equal when their difference is zero; below zero there is nothing, below the next word what is below or equal. */
  lemma ComparisonsAgree(a: Word, b: Word, p0: bool, p1: bool)
    ensures PredResult(CMP_EQ, a, b, p0, p1) <==> DataResult(SUB, a, b, p0, p1) == 0
    ensures PredResult(CMP_NE, a, b, p0, p1) <==> !PredResult(CMP_EQ, a, b, p0, p1)
    ensures !PredResult(CMP_ULT, a, 0, p0, p1)
    ensures b < MAX_WORD ==> (PredResult(CMP_ULT, a, b + 1, p0, p1) <==> PredResult(CMP_ULE, a, b, p0, p1))
    ensures PredResult(CMP_ULE, a, b, p0, p1) <==>
      PredResult(CMP_ULT, a, b, p0, p1) || PredResult(CMP_EQ, a, b, p0, p1)
  {
    if a != b {
      assert Wrap(a - b) == if a > b then a - b else a - b + WORD_VALUES;
    }
  }

  lemma PredicateTables(a: Word, b: Word, p: bool)
    ensures PredResult(PPASS, a, b, true, p) && !PredResult(PPASS, a, b, false, p)
    ensures !PredResult(PNOT, a, b, true, p) && PredResult(PNOT, a, b, false, p)
    ensures PredResult(PAND, a, b, true, true) && !PredResult(PAND, a, b, true, false)
    ensures !PredResult(PAND, a, b, false, true) && !PredResult(PAND, a, b, false, false)
    ensures PredResult(POR, a, b, true, true) && PredResult(POR, a, b, true, false)
    ensures PredResult(POR, a, b, false, true) && !PredResult(POR, a, b, false, false)
  {
  }

  // ----- Registers -----

  /** The second port's source, the function unit's result, or what was there: every register after a cycle. */
  ghost predicate RegistersFollow(before: TileState, inputs: TileInputs, ctrl: TileControl, after: TileState)
    requires Fits(before, ctrl)
  {
    && |after.dataRf| == |after.dataValid| == |before.dataRf| && |after.predRf| == |after.predValid| == |before.predRf|
    && (forall r :: 0 <= r < |before.dataRf| ==> DataFollows(before, inputs, ctrl, after, r))
    && (forall r :: 0 <= r < |before.predRf| ==> PredFollows(before, inputs, ctrl, after, r))
    && after.constMem == before.constMem
  }

  ghost predicate DataFollows(before: TileState, inputs: TileInputs, ctrl: TileControl, after: TileState, r: nat)
    requires Fits(before, ctrl) && r < |after.dataRf| == |after.dataValid| == |before.dataRf|
  {
    if ctrl.dataW1 && r == ctrl.dataW1Addr then
      after.dataValid[r] && after.dataRf[r] == DataValue(before, inputs, ctrl, ctrl.dataW1Src)
    else if ctrl.dataW0 && r == ctrl.dataW0Addr then
      && after.dataValid[r] && GivesData(ctrl.op)
      && after.dataRf[r] == DataResult(ctrl.op, DataValue(before, inputs, ctrl, ctrl.srcA),
                                       DataValue(before, inputs, ctrl, ctrl.srcB),
                                       PredValue(before, inputs, ctrl, ctrl.srcP0),
                                       PredValue(before, inputs, ctrl, ctrl.srcP1))
    else after.dataValid[r] == before.dataValid[r] && after.dataRf[r] == before.dataRf[r]
  }

  ghost predicate PredFollows(before: TileState, inputs: TileInputs, ctrl: TileControl, after: TileState, r: nat)
    requires Fits(before, ctrl) && r < |after.predRf| == |after.predValid| == |before.predRf|
  {
    if ctrl.predW1 && r == ctrl.predW1Addr then
      after.predValid[r] && after.predRf[r] == PredValue(before, inputs, ctrl, ctrl.predW1Src)
    else if ctrl.predW0 && r == ctrl.predW0Addr then
      && after.predValid[r] && GivesPred(ctrl.op)
      && after.predRf[r] == PredResult(ctrl.op, DataValue(before, inputs, ctrl, ctrl.srcA),
                                       DataValue(before, inputs, ctrl, ctrl.srcB),
                                       PredValue(before, inputs, ctrl, ctrl.srcP0),
                                       PredValue(before, inputs, ctrl, ctrl.srcP1))
    else after.predValid[r] == before.predValid[r] && after.predRf[r] == before.predRf[r]
  }

  lemma ResultThere(tile: TileState, inputs: TileInputs, ctrl: TileControl)
    requires Fits(tile, ctrl)
    ensures var fu := FuValue(tile, inputs, ctrl);
      && (fu.data.Some? <==> GivesData(ctrl.op)) && (fu.pred.Some? <==> GivesPred(ctrl.op))
      && fu == ExecuteFu(ctrl.op, DataValue(tile, inputs, ctrl, ctrl.srcA), DataValue(tile, inputs, ctrl, ctrl.srcB),
                         PredValue(tile, inputs, ctrl, ctrl.srcP0), PredValue(tile, inputs, ctrl, ctrl.srcP1))
  {
    hide DataValue, PredValue, ExecuteFu, GivesData, GivesPred;
    FuOutputs(ctrl.op, DataValue(tile, inputs, ctrl, ctrl.srcA), DataValue(tile, inputs, ctrl, ctrl.srcB),
              PredValue(tile, inputs, ctrl, ctrl.srcP0), PredValue(tile, inputs, ctrl, ctrl.srcP1));
  }

  lemma DataWritten(tile: TileState, inputs: TileInputs, ctrl: TileControl, r: nat)
    requires Fits(tile, ctrl)
    ensures var writes := EffectsOf(tile, inputs, ctrl).dataWrites;
      && (r in writes <==> (ctrl.dataW1 && r == ctrl.dataW1Addr) || (ctrl.dataW0 && r == ctrl.dataW0Addr))
      && (ctrl.dataW1 && r == ctrl.dataW1Addr ==> writes[r] == DataValue(tile, inputs, ctrl, ctrl.dataW1Src))
      && (ctrl.dataW0 && r == ctrl.dataW0Addr && !(ctrl.dataW1 && r == ctrl.dataW1Addr) ==>
            writes[r] == OrZero(FuValue(tile, inputs, ctrl).data))
  {
    hide DataValue, PredValue, DataOutOf, PredOutOf, RequestOf, FuValue, OrZero, OrFalse, Fits;
  }

  lemma DataPorts(tile: TileState, inputs: TileInputs, ctrl: TileControl, r: nat)
    requires Fits(tile, ctrl) && (ctrl.dataW0 ==> GivesData(ctrl.op)) && r < |tile.dataRf|
    ensures var after := Committed(tile, EffectsOf(tile, inputs, ctrl));
      |after.dataRf| == |after.dataValid| == |tile.dataRf| && DataFollows(tile, inputs, ctrl, after, r)
  {
    FittingSizes(tile, ctrl);
    hide DataValue, PredValue, ExecuteFu, FuValue, GivesData, GivesPred, EffectsOf, Fits;
    ResultThere(tile, inputs, ctrl);
    DataWritten(tile, inputs, ctrl, r);
  }

  lemma PredWritten(tile: TileState, inputs: TileInputs, ctrl: TileControl, r: nat)
    requires Fits(tile, ctrl)
    ensures var writes := EffectsOf(tile, inputs, ctrl).predWrites;
      && (r in writes <==> (ctrl.predW1 && r == ctrl.predW1Addr) || (ctrl.predW0 && r == ctrl.predW0Addr))
      && (ctrl.predW1 && r == ctrl.predW1Addr ==> writes[r] == PredValue(tile, inputs, ctrl, ctrl.predW1Src))
      && (ctrl.predW0 && r == ctrl.predW0Addr && !(ctrl.predW1 && r == ctrl.predW1Addr) ==>
            writes[r] == OrFalse(FuValue(tile, inputs, ctrl).pred))
  {
    hide DataValue, PredValue, DataOutOf, PredOutOf, RequestOf, FuValue, OrZero, OrFalse, Fits;
  }

  lemma PredPorts(tile: TileState, inputs: TileInputs, ctrl: TileControl, r: nat)
    requires Fits(tile, ctrl) && (ctrl.predW0 ==> GivesPred(ctrl.op)) && r < |tile.predRf|
    ensures var after := Committed(tile, EffectsOf(tile, inputs, ctrl));
      |after.predRf| == |after.predValid| == |tile.predRf| && PredFollows(tile, inputs, ctrl, after, r)
  {
    FittingSizes(tile, ctrl);
    hide DataValue, PredValue, ExecuteFu, FuValue, GivesData, GivesPred, EffectsOf, Fits;
    ResultThere(tile, inputs, ctrl);
    PredWritten(tile, inputs, ctrl, r);
  }

  lemma CommittedSizes(tile: TileState, effects: TileEffects)
    ensures var after := Committed(tile, effects);
      && |after.dataRf| == |tile.dataRf| && |after.dataValid| == |tile.dataValid|
      && |after.predRf| == |tile.predRf| && |after.predValid| == |tile.predValid| && after.constMem == tile.constMem
  {
  }

  lemma FittingSizes(tile: TileState, ctrl: TileControl)
    requires Fits(tile, ctrl)
    ensures |tile.dataRf| == |tile.dataValid| && |tile.predRf| == |tile.predValid|
  {
  }

  // A legal cycle leaves exactly that.
  lemma LegalCycleWrites(tile: TileState, inputs: TileInputs, ctrl: TileControl, hasLsu: bool)
    requires Fits(tile, ctrl) && ControlLegal(ctrl, hasLsu)
    ensures RegistersFollow(tile, inputs, ctrl, Committed(tile, EffectsOf(tile, inputs, ctrl)))
  {
    assert (ctrl.dataW0 ==> GivesData(ctrl.op)) && (ctrl.predW0 ==> GivesPred(ctrl.op));
    hide EffectsOf, Committed, DataFollows, PredFollows, Fits, ControlLegal, GivesData, GivesPred;
    CommittedSizes(tile, EffectsOf(tile, inputs, ctrl));
    FittingSizes(tile, ctrl);
    forall r | 0 <= r < |tile.dataRf|
      ensures DataFollows(tile, inputs, ctrl, Committed(tile, EffectsOf(tile, inputs, ctrl)), r)
    {
      DataPorts(tile, inputs, ctrl, r);
    }
    forall r | 0 <= r < |tile.predRf|
      ensures PredFollows(tile, inputs, ctrl, Committed(tile, EffectsOf(tile, inputs, ctrl)), r)
    {
      PredPorts(tile, inputs, ctrl, r);
    }
  }

  /** The hazard check looks at the registers written, no more and no fewer. */
  lemma WritesAreHazards(tile: TileState, inputs: TileInputs, ctrl: TileControl)
    requires Fits(tile, ctrl)
    ensures DataWrites(ctrl) == EffectsOf(tile, inputs, ctrl).dataWrites.Keys
    ensures PredWrites(ctrl) == EffectsOf(tile, inputs, ctrl).predWrites.Keys
  {
    hide DataValue, PredValue, ExecuteFu, DataOutOf, PredOutOf, RequestOf;
  }

  // Two tiles that differ at most in registers outside these.
  ghost predicate SameRegisters(a: TileState, b: TileState, data: set<nat>, preds: set<nat>) {
    && |a.dataRf| == |b.dataRf| && |a.predRf| == |b.predRf| && a.constMem == b.constMem
    && (forall r :: r in data && r < |a.dataRf| ==> a.dataRf[r] == b.dataRf[r])
    && (forall r :: r in preds && r < |a.predRf| ==> a.predRf[r] == b.predRf[r])
  }

  lemma SameSource(a: TileState, b: TileState, inputs: TileInputs, ctrl: TileControl)
    requires Fits(a, ctrl) && Fits(b, ctrl) && SameRegisters(a, b, DataReads(ctrl), PredReads(ctrl))
    ensures forall src :: src in DataUses(ctrl) ==> DataValue(a, inputs, ctrl, src) == DataValue(b, inputs, ctrl, src)
    ensures forall src :: src in PredUses(ctrl) ==> PredValue(a, inputs, ctrl, src) == PredValue(b, inputs, ctrl, src)
  {
    hide DataUses, PredUses;
  }

  lemma SourcesUsed(ctrl: TileControl)
    ensures ctrl.srcA in DataUses(ctrl) && ctrl.srcB in DataUses(ctrl)
    ensures ctrl.srcP0 in PredUses(ctrl) && ctrl.srcP1 in PredUses(ctrl)
    ensures ctrl.dataW1 ==> ctrl.dataW1Src in DataUses(ctrl)
    ensures ctrl.predW1 ==> ctrl.predW1Src in PredUses(ctrl)
    ensures ctrl.lsuOp != LsuNone ==> ctrl.lsuAddrSrc in DataUses(ctrl)
    ensures ctrl.lsuOp == LsuStore ==> ctrl.lsuStoreSrc in DataUses(ctrl)
    ensures ctrl.lsuOp == LsuStore && ctrl.commitEnable ==> ctrl.commitSrc in PredUses(ctrl)
    ensures forall d: Direction :: ctrl.dataRoutes.At(d).we && ctrl.dataRoutes.At(d).src.From? ==>
      ctrl.dataRoutes.At(d).src.source in DataUses(ctrl)
    ensures forall d: Direction :: ctrl.predRoutes.At(d).we && ctrl.predRoutes.At(d).src.From? ==>
      ctrl.predRoutes.At(d).src.source in PredUses(ctrl)
  {
  }

  /** The registers the checks take for read are all that a cycle depends on. */
  lemma OnlyReadRegistersMatter(a: TileState, b: TileState, inputs: TileInputs, ctrl: TileControl)
    requires Fits(a, ctrl) && Fits(b, ctrl) && SameRegisters(a, b, DataReads(ctrl), PredReads(ctrl))
    ensures EffectsOf(a, inputs, ctrl) == EffectsOf(b, inputs, ctrl)
  {
    SameSource(a, b, inputs, ctrl);
    SourcesUsed(ctrl);
    hide DataUses, PredUses, DataReads, PredReads, DataValue, PredValue, ExecuteFu, Fits, Sides.At;
    assert FuValue(a, inputs, ctrl) == FuValue(b, inputs, ctrl);
    assert RequestOf(a, inputs, ctrl) == RequestOf(b, inputs, ctrl);
    hide FuValue, RequestOf;
    assert DataOutOf(a, inputs, ctrl) == DataOutOf(b, inputs, ctrl);
    assert PredOutOf(a, inputs, ctrl) == PredOutOf(b, inputs, ctrl);
    hide DataOutOf, PredOutOf;
  }

  /** A tile without a control can always run, and nothing comes of it. */
  lemma IdleTile(tile: TileState, inputs: TileInputs, hasLsu: bool)
    requires Fits(tile, DefaultControl())
    ensures TileLegal(ShapeOf(tile, inputs), DefaultControl(), hasLsu)
    ensures EffectsOf(tile, inputs, DefaultControl()) == TileEffects(map[], map[], map[], map[], None)
  {
    assert forall d: Direction :: !DefaultControl().dataRoutes.At(d).we && !DefaultControl().predRoutes.At(d).we;
    hide ExecuteFu;
  }

  /** A side that is to send a result the operation does not give sends 0, or false. */
  lemma MissingResult(tile: TileState, inputs: TileInputs, ctrl: TileControl, d: Direction)
    requires Fits(tile, ctrl)
    ensures ctrl.dataRoutes.At(d) == RouteControl(true, FuResult) && !GivesData(ctrl.op) ==>
      d in EffectsOf(tile, inputs, ctrl).dataOut && EffectsOf(tile, inputs, ctrl).dataOut[d] == 0
    ensures ctrl.predRoutes.At(d) == RouteControl(true, FuResult) && !GivesPred(ctrl.op) ==>
      d in EffectsOf(tile, inputs, ctrl).predOut && !EffectsOf(tile, inputs, ctrl).predOut[d]
  {
    ResultThere(tile, inputs, ctrl);
    hide DataValue, PredValue, ExecuteFu, RequestOf, Sides.At, FuValue, GivesData, GivesPred, Fits;
    assert EffectsOf(tile, inputs, ctrl).dataOut == DataOutOf(tile, inputs, ctrl);
    assert EffectsOf(tile, inputs, ctrl).predOut == PredOutOf(tile, inputs, ctrl);
    hide EffectsOf;
  }
}
