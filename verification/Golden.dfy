// The cycle-level golden machine: tiles, registered mesh links and the shared scratchpad.

module GoldenTile {
  import opened Wrappers
  import opened Mesh
  import opened Tile

  // Reading one source fails unless the value is there.
  function ReadData(tile: TileState, inputs: TileInputs, ctrl: TileControl, src: DataSource): (value: Option<Word>)
    requires Fits(tile, ctrl)
    ensures value.Some? <==> DataAvailable(ShapeOf(tile, inputs), ctrl, src)
    ensures value.Some? ==> value.value == DataValue(tile, inputs, ctrl, src)
  {
    match src
    case DataRegA => if tile.dataValid[ctrl.dataReadA] then Some(tile.dataRf[ctrl.dataReadA]) else None
    case DataRegB => if tile.dataValid[ctrl.dataReadB] then Some(tile.dataRf[ctrl.dataReadB]) else None
    case DataIn(from) => if from in inputs.data then Some(inputs.data[from]) else None
    case LoadData => inputs.load
    case ConstData => Some(tile.constMem[ctrl.constAddr])
    case ZeroData => Some(0)
  }

  function ReadPred(tile: TileState, inputs: TileInputs, ctrl: TileControl, src: PredSource): (value: Option<bool>)
    requires Fits(tile, ctrl)
    ensures value.Some? <==> PredAvailable(ShapeOf(tile, inputs), ctrl, src)
    ensures value.Some? ==> value.value == PredValue(tile, inputs, ctrl, src)
  {
    match src
    case PredRegA => if tile.predValid[ctrl.predReadA] then Some(tile.predRf[ctrl.predReadA]) else None
    case PredRegB => if tile.predValid[ctrl.predReadB] then Some(tile.predRf[ctrl.predReadB]) else None
    case PredIn(from) => if from in inputs.pred then Some(inputs.pred[from]) else None
    case ConstTrue => Some(true)
    case ConstFalse => Some(false)
  }

  const DIRECTIONS: seq<Direction> := [North, South, East, West]

  lemma AllDirections()
    ensures forall d: Direction :: d in DIRECTIONS
  {
    forall d: Direction
      ensures d in DIRECTIONS
    {
      match d
      case North => assert DIRECTIONS[0] == d;
      case South => assert DIRECTIONS[1] == d;
      case East => assert DIRECTIONS[2] == d;
      case West => assert DIRECTIONS[3] == d;
    }
  }

  // All these sources can be read.
  predicate SourcesAvailable(tile: TileState, inputs: TileInputs, ctrl: TileControl, data: set<DataSource>, preds: set<PredSource>)
  {
    && (forall src :: src in data ==> DataAvailable(ShapeOf(tile, inputs), ctrl, src))
    && (forall src :: src in preds ==> PredAvailable(ShapeOf(tile, inputs), ctrl, src))
  }

  // The four operands of the function unit.
  method ReadOperands(tile: TileState, inputs: TileInputs, ctrl: TileControl) returns (fu: Option<FuOutput>)
    requires Fits(tile, ctrl)
    ensures fu.Some? <==> SourcesAvailable(tile, inputs, ctrl, {ctrl.srcA, ctrl.srcB}, {ctrl.srcP0, ctrl.srcP1})
    ensures fu.Some? ==> fu.value == FuValue(tile, inputs, ctrl)
  {
    hide DataAvailable, PredAvailable, DataValue, PredValue, ReadData, ReadPred, ExecuteFu, Fits;
    var a, b := ReadData(tile, inputs, ctrl, ctrl.srcA), ReadData(tile, inputs, ctrl, ctrl.srcB);
    var p0, p1 := ReadPred(tile, inputs, ctrl, ctrl.srcP0), ReadPred(tile, inputs, ctrl, ctrl.srcP1);
    if a.None? || b.None? || p0.None? || p1.None? {
      return None;
    }
    fu := Some(ExecuteFu(ctrl.op, a.value, b.value, p0.value, p1.value));
  }

  // A side of a switch box can be driven.
  predicate Drivable<S(!new), V(!new)>(route: RouteControl<S>, read: S -> Option<V>) {
    route.we ==> !route.src.NoRoute? && (route.src.From? ==> read(route.src.source).Some?)
  }

  ghost function Driven<S(!new), V(!new)>(route: RouteControl<S>, read: S -> Option<V>, fu: V): V {
    if route.src.From? && read(route.src.source).Some? then read(route.src.source).value else fu
  }

  // A switch box: one optional output per side, failing on a missing source or an enabled side without one.
  method SwitchBox<S(!new), V(!new)>(routes: Sides<RouteControl<S>>, read: S -> Option<V>, fu: V)
    returns (out: Option<map<Direction, V>>)
    ensures out.Some? <==> forall d: Direction :: Drivable(routes.At(d), read)
    ensures out.Some? ==> out.value.Keys == set d: Direction | routes.At(d).we
    ensures out.Some? ==> forall d :: d in out.value ==> out.value[d] == Driven(routes.At(d), read, fu)
  {
    AllDirections();
    var routed: map<Direction, V> := map[];
    for i := 0 to |DIRECTIONS|
      invariant forall d :: d in routed <==> d in DIRECTIONS[..i] && routes.At(d).we
      invariant forall d :: d in routed ==> routed[d] == Driven(routes.At(d), read, fu)
      invariant forall j :: 0 <= j < i ==> Drivable(routes.At(DIRECTIONS[j]), read)
    {
      var d := DIRECTIONS[i];
      var route := routes.At(d);
      if route.we {
        match route.src {
          case NoRoute =>
            return None;
          case FuResult =>
            routed := routed[d := fu];
          case From(source) =>
            var value := read(source);
            if value.None? {
              return None;
            }
            routed := routed[d := value.value];
        }
      }
    }
    forall d: Direction
      ensures Drivable(routes.At(d), read)
    {
      assert d in DIRECTIONS;
      var j :| 0 <= j < |DIRECTIONS| && DIRECTIONS[j] == d;
    }
    assert DIRECTIONS[..|DIRECTIONS|] == DIRECTIONS;
    out := Some(routed);
  }

  // Driving all sides is reading all route sources.
  lemma SidesDrivable<S(!new), V(!new)>(routes: Sides<RouteControl<S>>, read: S -> Option<V>)
    ensures (forall d: Direction :: Drivable(routes.At(d), read)) <==>
      RoutesLegal(routes) && forall src :: src in RouteSources(routes) ==> read(src).Some?
  {
    forall d: Direction
      ensures Drivable(routes.At(d), read) <==>
        (routes.At(d).we ==> !routes.At(d).src.NoRoute?) &&
        forall src :: src in RouteSourceOf(routes.At(d)) ==> read(src).Some?
    {
    }
    forall src
      ensures src in RouteSources(routes) <==> exists d: Direction :: src in RouteSourceOf(routes.At(d))
    {
      SourceOfSide(routes, src);
    }
  }

  lemma SourceOfSide<S(!new)>(routes: Sides<RouteControl<S>>, src: S)
    ensures src in RouteSources(routes) <==> exists d: Direction :: src in RouteSourceOf(routes.At(d))
  {
    assert routes.At(North) == routes.north && routes.At(South) == routes.south;
    assert routes.At(East) == routes.east && routes.At(West) == routes.west;
    if src in RouteSources(routes) {
      if src in RouteSourceOf(routes.north) {
        assert src in RouteSourceOf(routes.At(North));
      } else if src in RouteSourceOf(routes.south) {
        assert src in RouteSourceOf(routes.At(South));
      } else if src in RouteSourceOf(routes.east) {
        assert src in RouteSourceOf(routes.At(East));
      } else {
        assert src in RouteSourceOf(routes.At(West));
      }
    }
  }

  // Reading and writing one register in the same cycle.
  method Hazards(ctrl: TileControl) returns (found: bool)
    ensures !found <==> DataReads(ctrl) !! DataWrites(ctrl) && PredReads(ctrl) !! PredWrites(ctrl)
  {
    hide DataReads, PredReads, DataWrites, PredWrites;
    found := (exists r :: r in DataReads(ctrl) && r in DataWrites(ctrl)) ||
             (exists r :: r in PredReads(ctrl) && r in PredWrites(ctrl));
  }

  // The memory operation of the cycle, or None where it is forbidden, unreadable or out of range.
  method ExecuteLsu(tile: TileState, inputs: TileInputs, ctrl: TileControl, hasLsu: bool, scratchDepth: nat)
    returns (request: Option<Option<Request>>)
    requires Fits(tile, ctrl) && ctrl.lsuOp != LsuNone
    ensures request.Some? <==>
      && hasLsu && ctrl.lsuOp != LsuReserved && !(ctrl.lsuOp == LsuLoad && ctrl.commitEnable)
      && SourcesAvailable(tile, inputs, ctrl,
                          {ctrl.lsuAddrSrc} + (if ctrl.lsuOp == LsuStore then {ctrl.lsuStoreSrc} else {}),
                          if ctrl.lsuOp == LsuStore && ctrl.commitEnable then {ctrl.commitSrc} else {})
      && AddressLegal(tile, inputs, ctrl, scratchDepth)
    ensures request.Some? ==> request.value == RequestOf(tile, inputs, ctrl)
  {
    hide DataAvailable, PredAvailable, DataValue, PredValue, ReadData, ReadPred, Fits, ShapeOf;
    if !hasLsu || ctrl.lsuOp == LsuReserved || (ctrl.lsuOp == LsuLoad && ctrl.commitEnable) {
      return None;
    }
    var address := ReadData(tile, inputs, ctrl, ctrl.lsuAddrSrc);
    if address.None? || address.value >= scratchDepth {
      return None;
    }
    assert address.value == AddressOf(tile, inputs, ctrl);
    if ctrl.lsuOp == LsuLoad {
      assert RequestOf(tile, inputs, ctrl) == Some(LoadRequest(address.value));
      return Some(Some(LoadRequest(address.value)));
    }
    assert ctrl.lsuOp == LsuStore;
    var data := ReadData(tile, inputs, ctrl, ctrl.lsuStoreSrc);
    if data.None? {
      return None;
    }
    var commit := true;
    if ctrl.commitEnable {
      var pred := ReadPred(tile, inputs, ctrl, ctrl.commitSrc);
      if pred.None? {
        return None;
      }
      commit := pred.value != ctrl.commitInvert;
    }
    assert commit <==> !ctrl.commitEnable || PredValue(tile, inputs, ctrl, ctrl.commitSrc) != ctrl.commitInvert;
    assert data.value == DataValue(tile, inputs, ctrl, ctrl.lsuStoreSrc);
    var made: Option<Request> := if commit then Some(StoreRequest(address.value, data.value)) else None;
    assert made == RequestOf(tile, inputs, ctrl);
    request := Some(made);
  }

  // The writes of a register file through both its ports: the function unit's result and a routed source.
  method WritePorts<V>(w0: bool, w0Addr: nat, result: Option<V>, w1: bool, w1Addr: nat, source: Option<V>)
    returns (writes: Option<map<nat, V>>)
    ensures writes.Some? <==> (w0 ==> result.Some?) && (w1 ==> source.Some?) && !(w0 && w1 && w0Addr == w1Addr)
    ensures writes.Some? ==> writes.value == Ports(w0, w0Addr, result, w1, w1Addr, source)
  {
    if (w0 && result.None?) || (w0 && w1 && w0Addr == w1Addr) || (w1 && source.None?) {
      return None;
    }
    var ports: map<nat, V> := if w0 then map[w0Addr := result.value] else map[];
    if w1 {
      ports := ports[w1Addr := source.value];
    }
    writes := Some(ports);
  }

  ghost function Ports<V>(w0: bool, w0Addr: nat, result: Option<V>, w1: bool, w1Addr: nat, source: Option<V>): map<nat, V> {
    var first: map<nat, V> := if w0 && result.Some? then map[w0Addr := result.value] else map[];
    if w1 && source.Some? then first[w1Addr := source.value] else first
  }

  method WriteRegisters(tile: TileState, inputs: TileInputs, ctrl: TileControl, fu: FuOutput)
    returns (data: Option<map<nat, Word>>, preds: Option<map<nat, bool>>)
    requires Fits(tile, ctrl) && fu == FuValue(tile, inputs, ctrl)
    ensures data.Some? && preds.Some? <==>
      && (ctrl.dataW0 ==> GivesData(ctrl.op)) && (ctrl.predW0 ==> GivesPred(ctrl.op))
      && !(ctrl.dataW0 && ctrl.dataW1 && ctrl.dataW0Addr == ctrl.dataW1Addr)
      && !(ctrl.predW0 && ctrl.predW1 && ctrl.predW0Addr == ctrl.predW1Addr)
      && SourcesAvailable(tile, inputs, ctrl, if ctrl.dataW1 then {ctrl.dataW1Src} else {},
                          if ctrl.predW1 then {ctrl.predW1Src} else {})
    ensures data.Some? ==> data.value == EffectsOf(tile, inputs, ctrl).dataWrites
    ensures preds.Some? ==> preds.value == EffectsOf(tile, inputs, ctrl).predWrites
  {
    FuOutputs(ctrl.op, DataValue(tile, inputs, ctrl, ctrl.srcA), DataValue(tile, inputs, ctrl, ctrl.srcB),
              PredValue(tile, inputs, ctrl, ctrl.srcP0), PredValue(tile, inputs, ctrl, ctrl.srcP1));
    hide DataAvailable, PredAvailable, DataValue, PredValue, ReadData, ReadPred, Fits, ShapeOf, ExecuteFu, RequestOf,
         DataOutOf, PredOutOf, GivesData, GivesPred;
    var dataSource := if ctrl.dataW1 then ReadData(tile, inputs, ctrl, ctrl.dataW1Src) else None;
    var predSource := if ctrl.predW1 then ReadPred(tile, inputs, ctrl, ctrl.predW1Src) else None;
    data := WritePorts(ctrl.dataW0, ctrl.dataW0Addr, fu.data, ctrl.dataW1, ctrl.dataW1Addr, dataSource);
    preds := WritePorts(ctrl.predW0, ctrl.predW0Addr, fu.pred, ctrl.predW1, ctrl.predW1Addr, predSource);
  }

  // All sources a control word uses, by the part that uses them.
  lemma UsesByPart(tile: TileState, inputs: TileInputs, ctrl: TileControl, hasLsu: bool)
    ensures TileLegal(ShapeOf(tile, inputs), ctrl, hasLsu) <==>
      && ControlLegal(ctrl, hasLsu)
      && SourcesAvailable(tile, inputs, ctrl, {ctrl.srcA, ctrl.srcB}, {ctrl.srcP0, ctrl.srcP1})
      && SourcesAvailable(tile, inputs, ctrl, if ctrl.dataW1 then {ctrl.dataW1Src} else {},
                          if ctrl.predW1 then {ctrl.predW1Src} else {})
      && (ctrl.lsuOp != LsuNone ==>
            SourcesAvailable(tile, inputs, ctrl,
                             {ctrl.lsuAddrSrc} + (if ctrl.lsuOp == LsuStore then {ctrl.lsuStoreSrc} else {}),
                             if ctrl.lsuOp == LsuStore && ctrl.commitEnable then {ctrl.commitSrc} else {}))
      && SourcesAvailable(tile, inputs, ctrl, RouteSources(ctrl.dataRoutes), RouteSources(ctrl.predRoutes))
  {
    hide DataAvailable, PredAvailable, ShapeOf, ControlLegal, RouteSources;
  }

  // Both switch boxes.
  method RouteBoth(tile: TileState, inputs: TileInputs, ctrl: TileControl, fu: FuOutput)
    returns (dataOut: Option<map<Direction, Word>>, predOut: Option<map<Direction, bool>>)
    requires Fits(tile, ctrl) && fu == FuValue(tile, inputs, ctrl)
    ensures dataOut.Some? && predOut.Some? <==>
      && RoutesLegal(ctrl.dataRoutes) && RoutesLegal(ctrl.predRoutes)
      && SourcesAvailable(tile, inputs, ctrl, RouteSources(ctrl.dataRoutes), RouteSources(ctrl.predRoutes))
    ensures dataOut.Some? ==> dataOut.value == DataOutOf(tile, inputs, ctrl)
    ensures predOut.Some? ==> predOut.value == PredOutOf(tile, inputs, ctrl)
  {
    var readData := src => ReadData(tile, inputs, ctrl, src);
    var readPred := src => ReadPred(tile, inputs, ctrl, src);
    SidesDrivable(ctrl.dataRoutes, readData);
    SidesDrivable(ctrl.predRoutes, readPred);
    dataOut := SwitchBox(ctrl.dataRoutes, readData, OrZero(fu.data));
    predOut := SwitchBox(ctrl.predRoutes, readPred, OrFalse(fu.pred));
    hide Fits, DataAvailable, PredAvailable, DataValue, PredValue, RouteSources, RoutesLegal, FuValue;
    if dataOut.Some? {
      assert dataOut.value == DataOutOf(tile, inputs, ctrl);
    }
    if predOut.Some? {
      assert predOut.value == PredOutOf(tile, inputs, ctrl);
    }
  }

  lemma IdleLsu(tile: TileState, inputs: TileInputs, ctrl: TileControl)
    requires Fits(tile, ctrl)
    ensures ctrl.lsuOp == LsuNone ==> RequestOf(tile, inputs, ctrl) == None
  {
  }

  // One tile, one cycle: fails exactly where the cycle is illegal.
  method StepTile(tile: TileState, ctrl: TileControl, hasLsu: bool, inputs: TileInputs, scratchDepth: nat)
    returns (effects: Option<TileEffects>)
    requires Fits(tile, ctrl)
    ensures effects.Some? <==>
      TileLegal(ShapeOf(tile, inputs), ctrl, hasLsu) && AddressLegal(tile, inputs, ctrl, scratchDepth)
    ensures effects.Some? ==> effects.value == EffectsOf(tile, inputs, ctrl)
  {
    UsesByPart(tile, inputs, ctrl, hasLsu);
    hide TileLegal, DataAvailable, PredAvailable, DataValue, PredValue, Fits, ShapeOf, ExecuteFu, RequestOf, RouteSources,
         GivesData, GivesPred, DataReads, PredReads, DataWrites, PredWrites;
    var hazard := Hazards(ctrl);
    if hazard {
      return None;
    }
    var fu := ReadOperands(tile, inputs, ctrl);
    if fu.None? {
      return None;
    }
    var dataWrites, predWrites := WriteRegisters(tile, inputs, ctrl, fu.value);
    if dataWrites.None? || predWrites.None? {
      return None;
    }
    var request: Option<Request> := None;
    IdleLsu(tile, inputs, ctrl);
    if ctrl.lsuOp != LsuNone {
      var executed := ExecuteLsu(tile, inputs, ctrl, hasLsu, scratchDepth);
      if executed.None? {
        return None;
      }
      request := executed.value;
    }
    var dataOut, predOut := RouteBoth(tile, inputs, ctrl, fu.value);
    if dataOut.None? || predOut.None? {
      return None;
    }
    effects := Some(TileEffects(dataWrites.value, predWrites.value, dataOut.value, predOut.value, request));
  }
}
