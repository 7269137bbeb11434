// One tile of the array: its control word, its function unit and what a cycle does to it.

module Tile {
  import opened Wrappers
  import opened Mesh

  const WORD_VALUES: int := 0x1_0000_0000

  /** 32-bit words. */
  type Word = x: int | 0 <= x < WORD_VALUES

  function Wrap(x: int): Word {
    x % WORD_VALUES
  }

  function PowerOfTwo(n: nat): (p: nat)
    ensures p > 0
  {
    if n == 0 then 1 else 2 * PowerOfTwo(n - 1)
  }

  // The word of the n lowest bits of two others, combined bit by bit.
  function Bitwise(combine: (bool, bool) -> bool, a: nat, b: nat, n: nat): (r: nat)
    ensures r < PowerOfTwo(n)
  {
    if n == 0 then 0
    else (if combine(a % 2 == 1, b % 2 == 1) then 1 else 0) + 2 * Bitwise(combine, a / 2, b / 2, n - 1)
  }

  lemma WordPower()
    ensures PowerOfTwo(32) == WORD_VALUES
  {
    assert PowerOfTwo(8) == 256;
    assert PowerOfTwo(16) == 256 * 256;
    assert PowerOfTwo(24) == 256 * 256 * 256;
  }

  function BitAnd(a: Word, b: Word): Word {
    WordPower();
    Bitwise((x, y) => x && y, a, b, 32)
  }

  function BitOr(a: Word, b: Word): Word {
    WordPower();
    Bitwise((x, y) => x || y, a, b, 32)
  }

  function BitXor(a: Word, b: Word): Word {
    WordPower();
    Bitwise((x, y) => x != y, a, b, 32)
  }

  // Shift amounts use the low five bits.
  function ShiftLeft(a: Word, b: Word): Word {
    Wrap(a * PowerOfTwo(b % 32))
  }

  function ShiftRight(a: Word, b: Word): Word {
    ShrinksToWord(a, PowerOfTwo(b % 32));
    a / PowerOfTwo(b % 32)
  }

  lemma ShrinksToWord(a: Word, d: nat)
    requires d > 0
    ensures 0 <= a / d < WORD_VALUES
  {
  }

  datatype FuOp =
    | NOP | PASS | ADD | SUB | MUL | AND | OR | XOR | SHL | LSHR | SELECT
    | CMP_EQ | CMP_NE | CMP_ULT | CMP_ULE | PPASS | PNOT | PAND | POR

  datatype DataSource = DataRegA | DataRegB | DataIn(from: Direction) | ConstData | LoadData | ZeroData

  datatype PredSource = PredRegA | PredRegB | PredIn(from: Direction) | ConstTrue | ConstFalse

  datatype RouteSource<S> = NoRoute | FuResult | From(source: S)

  datatype RouteControl<S> = RouteControl(we: bool, src: RouteSource<S>)

  /** One value per side of a tile. */
  datatype Sides<T> = Sides(north: T, south: T, east: T, west: T) {
    function At(direction: Direction): T {
      match direction
      case North => north
      case South => south
      case East => east
      case West => west
    }
  }

  datatype LsuOp = LsuNone | LsuLoad | LsuStore | LsuReserved

  datatype TileControl = TileControl(
    op: FuOp,
    srcA: DataSource,
    srcB: DataSource,
    srcP0: PredSource,
    srcP1: PredSource,
    dataReadA: nat,
    dataReadB: nat,
    predReadA: nat,
    predReadB: nat,
    dataW0: bool,
    dataW0Addr: nat,
    dataW1: bool,
    dataW1Addr: nat,
    dataW1Src: DataSource,
    predW0: bool,
    predW0Addr: nat,
    predW1: bool,
    predW1Addr: nat,
    predW1Src: PredSource,
    dataRoutes: Sides<RouteControl<DataSource>>,
    predRoutes: Sides<RouteControl<PredSource>>,
    constAddr: nat,
    lsuOp: LsuOp,
    lsuAddrSrc: DataSource,
    lsuStoreSrc: DataSource,
    commitEnable: bool,
    commitInvert: bool,
    commitSrc: PredSource)

  // The control of a tile that has none: it does nothing.
  function DefaultControl(): TileControl {
    var noData, noPred := RouteControl(false, NoRoute), RouteControl(false, NoRoute);
    TileControl(NOP, ZeroData, ZeroData, ConstFalse, ConstFalse, 0, 0, 0, 0, false, 0, false, 0, ZeroData, false, 0,
                false, 0, ConstFalse, Sides(noData, noData, noData, noData), Sides(noPred, noPred, noPred, noPred), 0,
                LsuNone, ZeroData, ZeroData, false, false, ConstFalse)
  }

  // ----- The function unit -----

  datatype FuOutput = FuOutput(data: Option<Word>, pred: Option<bool>)

  function ExecuteFu(op: FuOp, a: Word, b: Word, p0: bool, p1: bool): FuOutput {
    match op
    case NOP => FuOutput(None, None)
    case PASS => FuOutput(Some(a), None)
    case ADD => FuOutput(Some(Wrap(a + b)), None)
    case SUB => FuOutput(Some(Wrap(a - b)), None)
    case MUL => FuOutput(Some(Wrap(a * b)), None)
    case AND => FuOutput(Some(BitAnd(a, b)), None)
    case OR => FuOutput(Some(BitOr(a, b)), None)
    case XOR => FuOutput(Some(BitXor(a, b)), None)
    case SHL => FuOutput(Some(ShiftLeft(a, b)), None)
    case LSHR => FuOutput(Some(ShiftRight(a, b)), None)
    case SELECT => FuOutput(Some(if p0 then a else b), None)
    case CMP_EQ => FuOutput(None, Some(a == b))
    case CMP_NE => FuOutput(None, Some(a != b))
    case CMP_ULT => FuOutput(None, Some(a < b))
    case CMP_ULE => FuOutput(None, Some(a <= b))
    case PPASS => FuOutput(None, Some(p0))
    case PNOT => FuOutput(None, Some(!p0))
    case PAND => FuOutput(None, Some(p0 && p1))
    case POR => FuOutput(None, Some(p0 || p1))
  }

  predicate GivesData(op: FuOp) {
    op in {PASS, ADD, SUB, MUL, AND, OR, XOR, SHL, LSHR, SELECT}
  }

  predicate GivesPred(op: FuOp) {
    op != NOP && !GivesData(op)
  }

  // Which results there are is a matter of the operation alone.
  lemma FuOutputs(op: FuOp, a: Word, b: Word, p0: bool, p1: bool)
    ensures ExecuteFu(op, a, b, p0, p1).data.Some? <==> GivesData(op)
    ensures ExecuteFu(op, a, b, p0, p1).pred.Some? <==> GivesPred(op)
  {
    hide Wrap, BitAnd, BitOr, BitXor, ShiftLeft, ShiftRight;
  }

  // ----- What a control word asks for -----

  function RouteSources<S(==)>(routes: Sides<RouteControl<S>>): set<S> {
    RouteSourceOf(routes.north) + RouteSourceOf(routes.south) + RouteSourceOf(routes.east) + RouteSourceOf(routes.west)
  }

  function RouteSourceOf<S(==)>(route: RouteControl<S>): set<S> {
    if route.we && route.src.From? then {route.src.source} else {}
  }

  // The data sources evaluated in this cycle, and the predicate sources.
  function DataUses(ctrl: TileControl): set<DataSource> {
    {ctrl.srcA, ctrl.srcB} + (if ctrl.dataW1 then {ctrl.dataW1Src} else {}) +
    (if ctrl.lsuOp != LsuNone then {ctrl.lsuAddrSrc} else {}) +
    (if ctrl.lsuOp == LsuStore then {ctrl.lsuStoreSrc} else {}) + RouteSources(ctrl.dataRoutes)
  }

  function PredUses(ctrl: TileControl): set<PredSource> {
    {ctrl.srcP0, ctrl.srcP1} + (if ctrl.predW1 then {ctrl.predW1Src} else {}) +
    (if ctrl.lsuOp == LsuStore && ctrl.commitEnable then {ctrl.commitSrc} else {}) + RouteSources(ctrl.predRoutes)
  }

  function DataReads(ctrl: TileControl): set<nat> {
    (if DataRegA in DataUses(ctrl) then {ctrl.dataReadA} else {}) +
    (if DataRegB in DataUses(ctrl) then {ctrl.dataReadB} else {})
  }

  function PredReads(ctrl: TileControl): set<nat> {
    (if PredRegA in PredUses(ctrl) then {ctrl.predReadA} else {}) +
    (if PredRegB in PredUses(ctrl) then {ctrl.predReadB} else {})
  }

  function DataWrites(ctrl: TileControl): set<nat> {
    (if ctrl.dataW0 then {ctrl.dataW0Addr} else {}) + (if ctrl.dataW1 then {ctrl.dataW1Addr} else {})
  }

  function PredWrites(ctrl: TileControl): set<nat> {
    (if ctrl.predW0 then {ctrl.predW0Addr} else {}) + (if ctrl.predW1 then {ctrl.predW1Addr} else {})
  }

  // What is wrong with a control word no matter what state the tile is in.
  predicate ControlLegal(ctrl: TileControl, hasLsu: bool) {
    && DataReads(ctrl) !! DataWrites(ctrl)
    && PredReads(ctrl) !! PredWrites(ctrl)
    && (ctrl.dataW0 ==> GivesData(ctrl.op))
    && (ctrl.predW0 ==> GivesPred(ctrl.op))
    && !(ctrl.dataW0 && ctrl.dataW1 && ctrl.dataW0Addr == ctrl.dataW1Addr)
    && !(ctrl.predW0 && ctrl.predW1 && ctrl.predW0Addr == ctrl.predW1Addr)
    && RoutesLegal(ctrl.dataRoutes) && RoutesLegal(ctrl.predRoutes)
    && (ctrl.lsuOp != LsuNone ==>
          hasLsu && ctrl.lsuOp != LsuReserved && !(ctrl.lsuOp == LsuLoad && ctrl.commitEnable))
  }

  predicate RoutesLegal<S(==)>(routes: Sides<RouteControl<S>>) {
    forall d: Direction :: routes.At(d).we ==> !routes.At(d).src.NoRoute?
  }

  // ----- What is there to be read -----

  /** Which values a tile can use in a cycle, without saying what they are. */
  datatype TileShape = TileShape(
    dataValid: seq<bool>,
    predValid: seq<bool>,
    dataArrived: set<Direction>,
    predArrived: set<Direction>,
    loadArrived: bool)

  predicate DataAvailable(shape: TileShape, ctrl: TileControl, src: DataSource) {
    match src
    case DataRegA => ctrl.dataReadA < |shape.dataValid| && shape.dataValid[ctrl.dataReadA]
    case DataRegB => ctrl.dataReadB < |shape.dataValid| && shape.dataValid[ctrl.dataReadB]
    case DataIn(from) => from in shape.dataArrived
    case LoadData => shape.loadArrived
    case ConstData => true
    case ZeroData => true
  }

  predicate PredAvailable(shape: TileShape, ctrl: TileControl, src: PredSource) {
    match src
    case PredRegA => ctrl.predReadA < |shape.predValid| && shape.predValid[ctrl.predReadA]
    case PredRegB => ctrl.predReadB < |shape.predValid| && shape.predValid[ctrl.predReadB]
    case PredIn(from) => from in shape.predArrived
    case ConstTrue => true
    case ConstFalse => true
  }

  /** The tile can execute this control: everything it uses is there and nothing it does is forbidden. */
  predicate TileLegal(shape: TileShape, ctrl: TileControl, hasLsu: bool) {
    && (forall src :: src in DataUses(ctrl) ==> DataAvailable(shape, ctrl, src))
    && (forall src :: src in PredUses(ctrl) ==> PredAvailable(shape, ctrl, src))
    && ControlLegal(ctrl, hasLsu)
  }

  // ----- State and values -----

  datatype TileState = TileState(
    dataRf: seq<Word>,
    dataValid: seq<bool>,
    predRf: seq<bool>,
    predValid: seq<bool>,
    constMem: seq<Word>)
  {
    predicate Sized(dataDepth: nat, predDepth: nat, constDepth: nat) {
      |dataRf| == |dataValid| == dataDepth && |predRf| == |predValid| == predDepth && |constMem| == constDepth
    }
  }

  datatype TileInputs = TileInputs(data: map<Direction, Word>, pred: map<Direction, bool>, load: Option<Word>)

  // All addresses of a control word lie within the memories.
  predicate InDepths(ctrl: TileControl, dataDepth: nat, predDepth: nat, constDepth: nat) {
    && ctrl.dataReadA < dataDepth && ctrl.dataReadB < dataDepth
    && ctrl.dataW0Addr < dataDepth && ctrl.dataW1Addr < dataDepth
    && ctrl.predReadA < predDepth && ctrl.predReadB < predDepth
    && ctrl.predW0Addr < predDepth && ctrl.predW1Addr < predDepth
    && ctrl.constAddr < constDepth
  }

  predicate Fits(tile: TileState, ctrl: TileControl) {
    && |tile.dataRf| == |tile.dataValid| && |tile.predRf| == |tile.predValid|
    && InDepths(ctrl, |tile.dataRf|, |tile.predRf|, |tile.constMem|)
  }

  function ShapeOf(tile: TileState, inputs: TileInputs): TileShape {
    TileShape(tile.dataValid, tile.predValid, inputs.data.Keys, inputs.pred.Keys, inputs.load.Some?)
  }

  function DataValue(tile: TileState, inputs: TileInputs, ctrl: TileControl, src: DataSource): Word
    requires Fits(tile, ctrl)
  {
    match src
    case DataRegA => tile.dataRf[ctrl.dataReadA]
    case DataRegB => tile.dataRf[ctrl.dataReadB]
    case DataIn(from) => if from in inputs.data then inputs.data[from] else 0
    case LoadData => if inputs.load.Some? then inputs.load.value else 0
    case ConstData => tile.constMem[ctrl.constAddr]
    case ZeroData => 0
  }

  function PredValue(tile: TileState, inputs: TileInputs, ctrl: TileControl, src: PredSource): bool
    requires Fits(tile, ctrl)
  {
    match src
    case PredRegA => tile.predRf[ctrl.predReadA]
    case PredRegB => tile.predRf[ctrl.predReadB]
    case PredIn(from) => from in inputs.pred && inputs.pred[from]
    case ConstTrue => true
    case ConstFalse => false
  }

  function FuValue(tile: TileState, inputs: TileInputs, ctrl: TileControl): FuOutput
    requires Fits(tile, ctrl)
  {
    ExecuteFu(ctrl.op, DataValue(tile, inputs, ctrl, ctrl.srcA), DataValue(tile, inputs, ctrl, ctrl.srcB),
              PredValue(tile, inputs, ctrl, ctrl.srcP0), PredValue(tile, inputs, ctrl, ctrl.srcP1))
  }

  // ----- What a legal cycle does -----

  datatype PortRequest<D> = LoadRequest(address: nat) | StoreRequest(address: nat, data: D)

  datatype Effects<D, P> = TileEffects(
    dataWrites: map<nat, D>,
    predWrites: map<nat, P>,
    dataOut: map<Direction, D>,
    predOut: map<Direction, P>,
    request: Option<PortRequest<D>>)

  type Request = PortRequest<Word>

  type TileEffects = Effects<Word, bool>

  function OrZero(x: Option<Word>): Word {
    if x.Some? then x.value else 0
  }

  function OrFalse(x: Option<bool>): bool {
    x.Some? && x.value
  }

  function DataRouteValue(tile: TileState, inputs: TileInputs, ctrl: TileControl, src: RouteSource<DataSource>): Word
    requires Fits(tile, ctrl)
  {
    match src
    case NoRoute => 0
    case FuResult => OrZero(FuValue(tile, inputs, ctrl).data)
    case From(source) => DataValue(tile, inputs, ctrl, source)
  }

  function PredRouteValue(tile: TileState, inputs: TileInputs, ctrl: TileControl, src: RouteSource<PredSource>): bool
    requires Fits(tile, ctrl)
  {
    match src
    case NoRoute => false
    case FuResult => OrFalse(FuValue(tile, inputs, ctrl).pred)
    case From(source) => PredValue(tile, inputs, ctrl, source)
  }

  function AddressOf(tile: TileState, inputs: TileInputs, ctrl: TileControl): nat
    requires Fits(tile, ctrl)
  {
    DataValue(tile, inputs, ctrl, ctrl.lsuAddrSrc)
  }

  // An active LSU operation addresses the scratchpad.
  predicate AddressLegal(tile: TileState, inputs: TileInputs, ctrl: TileControl, scratchDepth: nat)
    requires Fits(tile, ctrl)
  {
    ctrl.lsuOp != LsuNone ==> AddressOf(tile, inputs, ctrl) < scratchDepth
  }

  // A store whose predicate does not commit makes no request.
  function RequestOf(tile: TileState, inputs: TileInputs, ctrl: TileControl): Option<Request>
    requires Fits(tile, ctrl)
  {
    match ctrl.lsuOp
    case LsuLoad => Some(LoadRequest(AddressOf(tile, inputs, ctrl)))
    case LsuStore =>
      if !ctrl.commitEnable || PredValue(tile, inputs, ctrl, ctrl.commitSrc) != ctrl.commitInvert
      then Some(StoreRequest(AddressOf(tile, inputs, ctrl), DataValue(tile, inputs, ctrl, ctrl.lsuStoreSrc)))
      else None
    case _ => None
  }

  function DataOutOf(tile: TileState, inputs: TileInputs, ctrl: TileControl): map<Direction, Word>
    requires Fits(tile, ctrl)
  {
    map d: Direction | ctrl.dataRoutes.At(d).we :: DataRouteValue(tile, inputs, ctrl, ctrl.dataRoutes.At(d).src)
  }

  function PredOutOf(tile: TileState, inputs: TileInputs, ctrl: TileControl): map<Direction, bool>
    requires Fits(tile, ctrl)
  {
    map d: Direction | ctrl.predRoutes.At(d).we :: PredRouteValue(tile, inputs, ctrl, ctrl.predRoutes.At(d).src)
  }

  function EffectsOf(tile: TileState, inputs: TileInputs, ctrl: TileControl): TileEffects
    requires Fits(tile, ctrl)
  {
    var fu := FuValue(tile, inputs, ctrl);
    var w0: map<nat, Word> := if ctrl.dataW0 then map[ctrl.dataW0Addr := OrZero(fu.data)] else map[];
    var pw0: map<nat, bool> := if ctrl.predW0 then map[ctrl.predW0Addr := OrFalse(fu.pred)] else map[];
    TileEffects(
      if ctrl.dataW1 then w0[ctrl.dataW1Addr := DataValue(tile, inputs, ctrl, ctrl.dataW1Src)] else w0,
      if ctrl.predW1 then pw0[ctrl.predW1Addr := PredValue(tile, inputs, ctrl, ctrl.predW1Src)] else pw0,
      DataOutOf(tile, inputs, ctrl),
      PredOutOf(tile, inputs, ctrl),
      RequestOf(tile, inputs, ctrl))
  }

  // Registers after the write ports have fired.
  function Committed(tile: TileState, effects: TileEffects): TileState {
    TileState(
      seq(|tile.dataRf|, i requires 0 <= i < |tile.dataRf| =>
        if i in effects.dataWrites then effects.dataWrites[i] else tile.dataRf[i]),
      seq(|tile.dataValid|, i requires 0 <= i < |tile.dataValid| => i in effects.dataWrites || tile.dataValid[i]),
      seq(|tile.predRf|, i requires 0 <= i < |tile.predRf| =>
        if i in effects.predWrites then effects.predWrites[i] else tile.predRf[i]),
      seq(|tile.predValid|, i requires 0 <= i < |tile.predValid| => i in effects.predWrites || tile.predValid[i]),
      tile.constMem)
  }
}
