// The schedule checker's view of one tile in one cycle: values may be unknown, violations are collected.

module ScheduleTile {
  import opened Wrappers
  import opened Mesh
  import opened Tile
  import GoldenTile

  datatype Code =
    | DataWriteCollision | PredWriteCollision | DataHazard | PredHazard | DataUninitialized | PredUninitialized
    | LoadResponse | NetworkArrival | UnsupportedControl | NonLsuOperation | AddressRange | StoreConflict | LinkConflict
    | PeriodicUnproven

  datatype CheckedTile = CheckedTile(
    dataValid: seq<bool>,
    dataValues: seq<Option<Word>>,
    predValid: seq<bool>,
    predValues: seq<Option<bool>>,
    constValues: seq<Word>)
  {
    predicate Sized(dataDepth: nat, predDepth: nat, constDepth: nat) {
      |dataValues| == |dataValid| == dataDepth && |predValues| == |predValid| == predDepth && |constValues| == constDepth
    }
  }

  /** A load response is there or not, and if it is, its value may be unknown. */
  datatype CheckedInputs = CheckedInputs(
    data: map<Direction, Option<Word>>,
    pred: map<Direction, Option<bool>>,
    load: Option<Option<Word>>)

  type CheckedEffects = Effects<Option<Word>, Option<bool>>

  type CheckedRequest = PortRequest<Option<Word>>

  predicate Admits(c: CheckedTile, ctrl: TileControl) {
    && |c.dataValues| == |c.dataValid| && |c.predValues| == |c.predValid|
    && InDepths(ctrl, |c.dataValid|, |c.predValid|, |c.constValues|)
  }

  // ----- Seeing the golden machine -----

  function LiftMap<K, V>(m: map<K, V>): map<K, Option<V>> {
    map k | k in m :: Some(m[k])
  }

  function LiftSeq<V>(s: seq<V>): seq<Option<V>> {
    seq(|s|, i requires 0 <= i < |s| => Some(s[i]))
  }

  // Values of registers that were written; the others are unknown.
  function ValidValues<V>(valid: seq<bool>, values: seq<V>): seq<Option<V>> {
    seq(|valid|, i requires 0 <= i < |valid| => if valid[i] && i < |values| then Some(values[i]) else None)
  }

  function LiftTile(tile: TileState): CheckedTile {
    CheckedTile(tile.dataValid, ValidValues(tile.dataValid, tile.dataRf), tile.predValid,
                ValidValues(tile.predValid, tile.predRf), tile.constMem)
  }

  function LiftInputs(inputs: TileInputs): CheckedInputs {
    CheckedInputs(LiftMap(inputs.data), LiftMap(inputs.pred), if inputs.load.Some? then Some(inputs.load) else None)
  }

  function LiftRequest(request: Option<Request>): Option<CheckedRequest> {
    match request
    case None => None
    case Some(LoadRequest(address)) => Some(LoadRequest(address))
    case Some(StoreRequest(address, data)) => Some(StoreRequest(address, Some(data)))
  }

  function LiftEffects(effects: TileEffects): CheckedEffects {
    TileEffects(LiftMap(effects.dataWrites), LiftMap(effects.predWrites), LiftMap(effects.dataOut),
                LiftMap(effects.predOut), LiftRequest(effects.request))
  }

  // The checker knows exactly what the golden tile and its inputs hold.
  ghost predicate Agrees(c: CheckedTile, given: CheckedInputs, ctrl: TileControl, tile: TileState, inputs: TileInputs) {
    Fits(tile, ctrl) && c == LiftTile(tile) && given == LiftInputs(inputs)
  }

  // ----- Reading sources -----

  datatype Reading<V> = Reading(value: Option<V>, codes: seq<Code>)

  function ReadData(c: CheckedTile, given: CheckedInputs, ctrl: TileControl, src: DataSource): Reading<Word>
    requires Admits(c, ctrl)
  {
    match src
    case DataRegA => Reading(c.dataValues[ctrl.dataReadA], [])
    case DataRegB => Reading(c.dataValues[ctrl.dataReadB], [])
    case ConstData => Reading(Some(c.constValues[ctrl.constAddr]), [])
    case ZeroData => Reading(Some(0), [])
    case LoadData => if given.load.Some? then Reading(given.load.value, []) else Reading(None, [LoadResponse])
    case DataIn(from) => if from in given.data then Reading(given.data[from], []) else Reading(None, [NetworkArrival])
  }

  function ReadPred(c: CheckedTile, given: CheckedInputs, ctrl: TileControl, src: PredSource): Reading<bool>
    requires Admits(c, ctrl)
  {
    match src
    case PredRegA => Reading(c.predValues[ctrl.predReadA], [])
    case PredRegB => Reading(c.predValues[ctrl.predReadB], [])
    case ConstTrue => Reading(Some(true), [])
    case ConstFalse => Reading(Some(false), [])
    case PredIn(from) => if from in given.pred then Reading(given.pred[from], []) else Reading(None, [NetworkArrival])
  }

  predicate RegistersReady(c: CheckedTile, ctrl: TileControl)
    requires Admits(c, ctrl)
  {
    && (forall r :: r in DataReads(ctrl) ==> r < |c.dataValid| && c.dataValid[r])
    && (forall r :: r in PredReads(ctrl) ==> r < |c.predValid| && c.predValid[r])
  }

  /** All registers the control word uses were written, and the rest of the tile is as the golden one. */
  ghost predicate Settled(c: CheckedTile, given: CheckedInputs, ctrl: TileControl, tile: TileState, inputs: TileInputs) {
    Agrees(c, given, ctrl, tile, inputs) && Admits(c, ctrl) && RegistersReady(c, ctrl)
  }

  // Reading succeeds without a violation exactly where the value is there.
  lemma DataReadAgrees(c: CheckedTile, given: CheckedInputs, ctrl: TileControl, tile: TileState, inputs: TileInputs,
                       src: DataSource)
    requires Settled(c, given, ctrl, tile, inputs) && src in DataUses(ctrl)
    ensures |ReadData(c, given, ctrl, src).codes| == 0 <==> DataAvailable(ShapeOf(tile, inputs), ctrl, src)
    ensures |ReadData(c, given, ctrl, src).codes| == 0 ==>
      ReadData(c, given, ctrl, src).value == Some(DataValue(tile, inputs, ctrl, src))
  {
    hide DataUses;
  }

  lemma PredReadAgrees(c: CheckedTile, given: CheckedInputs, ctrl: TileControl, tile: TileState, inputs: TileInputs,
                       src: PredSource)
    requires Settled(c, given, ctrl, tile, inputs) && src in PredUses(ctrl)
    ensures |ReadPred(c, given, ctrl, src).codes| == 0 <==> PredAvailable(ShapeOf(tile, inputs), ctrl, src)
    ensures |ReadPred(c, given, ctrl, src).codes| == 0 ==>
      ReadPred(c, given, ctrl, src).value == Some(PredValue(tile, inputs, ctrl, src))
  {
    hide PredUses;
  }

  // ----- Registers -----

  method Overlaps(used: set<nat>, written: set<nat>, code: Code) returns (codes: seq<Code>)
    ensures |codes| == 0 <==> used !! written
  {
    codes := [];
    var both := used * written;
    while both != {}
      invariant both <= used * written
      invariant |codes| == 0 <==> both == used * written
    {
      var r :| r in both;
      both := both - {r};
      codes := codes + [code];
    }
    forall r | r in used && r in written
      ensures used * written != {}
    {
      assert r in used * written;
    }
  }

  method Uninitialized(used: set<nat>, valid: seq<bool>, code: Code) returns (codes: seq<Code>)
    requires forall r :: r in used ==> r < |valid|
    ensures |codes| == 0 <==> forall r :: r in used ==> valid[r]
  {
    codes := [];
    var rest := used;
    while rest != {}
      invariant rest <= used
      invariant |codes| == 0 <==> forall r :: r in used && r !in rest ==> valid[r]
    {
      var r :| r in rest;
      rest := rest - {r};
      if !valid[r] {
        codes := codes + [code];
      }
    }
  }

  ghost predicate RegistersLegal(ctrl: TileControl) {
    && DataReads(ctrl) !! DataWrites(ctrl) && PredReads(ctrl) !! PredWrites(ctrl)
    && !(ctrl.dataW0 && ctrl.dataW1 && ctrl.dataW0Addr == ctrl.dataW1Addr)
    && !(ctrl.predW0 && ctrl.predW1 && ctrl.predW0Addr == ctrl.predW1Addr)
  }

  method CheckRegisters(c: CheckedTile, ctrl: TileControl) returns (codes: seq<Code>)
    requires Admits(c, ctrl)
    ensures |codes| == 0 <==> RegistersLegal(ctrl) && RegistersReady(c, ctrl)
  {
    hide DataUses, PredUses, DataWrites, PredWrites;
    codes := [];
    if ctrl.dataW0 && ctrl.dataW1 && ctrl.dataW0Addr == ctrl.dataW1Addr {
      codes := codes + [DataWriteCollision];
    }
    if ctrl.predW0 && ctrl.predW1 && ctrl.predW0Addr == ctrl.predW1Addr {
      codes := codes + [PredWriteCollision];
    }
    var data := Overlaps(DataReads(ctrl), DataWrites(ctrl), DataHazard);
    var preds := Overlaps(PredReads(ctrl), PredWrites(ctrl), PredHazard);
    var unwritten := Uninitialized(DataReads(ctrl), c.dataValid, DataUninitialized);
    var unwrittenPreds := Uninitialized(PredReads(ctrl), c.predValid, PredUninitialized);
    codes := codes + data + preds + unwritten + unwrittenPreds;
  }

  // ----- Operands -----

  method CheckOperands(c: CheckedTile, given: CheckedInputs, ctrl: TileControl, ghost tile: TileState,
                       ghost inputs: TileInputs)
    returns (fu: FuOutput, codes: seq<Code>)
    requires Admits(c, ctrl)
    ensures fu.data.Some? <==> GivesData(ctrl.op)
    ensures fu.pred.Some? <==> GivesPred(ctrl.op)
    ensures Settled(c, given, ctrl, tile, inputs) ==>
      (|codes| == 0 <==>
         GoldenTile.SourcesAvailable(tile, inputs, ctrl, {ctrl.srcA, ctrl.srcB}, {ctrl.srcP0, ctrl.srcP1})) &&
      (|codes| == 0 ==> fu == FuValue(tile, inputs, ctrl))
  {
    var a, b := ReadData(c, given, ctrl, ctrl.srcA), ReadData(c, given, ctrl, ctrl.srcB);
    var p0, p1 := ReadPred(c, given, ctrl, ctrl.srcP0), ReadPred(c, given, ctrl, ctrl.srcP1);
    fu := ExecuteFu(ctrl.op, OrZero(a.value), OrZero(b.value), OrFalse(p0.value), OrFalse(p1.value));
    FuOutputs(ctrl.op, OrZero(a.value), OrZero(b.value), OrFalse(p0.value), OrFalse(p1.value));
    codes := a.codes + b.codes + p0.codes + p1.codes;
    if Settled(c, given, ctrl, tile, inputs) {
      DataReadAgrees(c, given, ctrl, tile, inputs, ctrl.srcA);
      DataReadAgrees(c, given, ctrl, tile, inputs, ctrl.srcB);
      PredReadAgrees(c, given, ctrl, tile, inputs, ctrl.srcP0);
      PredReadAgrees(c, given, ctrl, tile, inputs, ctrl.srcP1);
    }
    hide Settled, ReadData, ReadPred, DataAvailable, PredAvailable, DataValue, PredValue, ExecuteFu, GivesData, GivesPred, Fits,
         Admits, ShapeOf, DataUses, PredUses;
  }

  // ----- Write ports -----

  method CheckPorts<V>(w0: bool, w0Addr: nat, result: Option<V>, w1: bool, w1Addr: nat, source: Reading<V>)
    returns (writes: map<nat, Option<V>>, codes: seq<Code>)
    ensures |codes| == 0 <==> (w0 ==> result.Some?) && (w1 ==> |source.codes| == 0)
    ensures |codes| == 0 && (w1 ==> source.value.Some?) ==>
      writes == LiftMap(GoldenTile.Ports(w0, w0Addr, result, w1, w1Addr, source.value))
  {
    writes, codes := map[], [];
    if w0 {
      if result.None? {
        codes := codes + [UnsupportedControl];
      } else {
        writes := writes[w0Addr := result];
      }
    }
    if w1 {
      codes := codes + source.codes;
      writes := writes[w1Addr := source.value];
    }
  }

  method CheckWrites(c: CheckedTile, given: CheckedInputs, ctrl: TileControl, fu: FuOutput, ghost tile: TileState,
                     ghost inputs: TileInputs)
    returns (data: map<nat, Option<Word>>, preds: map<nat, Option<bool>>, codes: seq<Code>)
    requires Admits(c, ctrl) && (fu.data.Some? <==> GivesData(ctrl.op)) && (fu.pred.Some? <==> GivesPred(ctrl.op))
    ensures Settled(c, given, ctrl, tile, inputs) ==>
      (|codes| == 0 <==>
         && (ctrl.dataW0 ==> GivesData(ctrl.op)) && (ctrl.predW0 ==> GivesPred(ctrl.op))
         && GoldenTile.SourcesAvailable(tile, inputs, ctrl, if ctrl.dataW1 then {ctrl.dataW1Src} else {},
                                        if ctrl.predW1 then {ctrl.predW1Src} else {})) &&
      (|codes| == 0 && fu == FuValue(tile, inputs, ctrl) ==>
         data == LiftMap(EffectsOf(tile, inputs, ctrl).dataWrites) &&
         preds == LiftMap(EffectsOf(tile, inputs, ctrl).predWrites))
  {
    var dataSource := ReadData(c, given, ctrl, ctrl.dataW1Src);
    var predSource := ReadPred(c, given, ctrl, ctrl.predW1Src);
    if Settled(c, given, ctrl, tile, inputs) {
      if ctrl.dataW1 {
        DataReadAgrees(c, given, ctrl, tile, inputs, ctrl.dataW1Src);
      }
      if ctrl.predW1 {
        PredReadAgrees(c, given, ctrl, tile, inputs, ctrl.predW1Src);
      }
    }
    hide Settled, ReadData, ReadPred, DataAvailable, PredAvailable, DataValue, PredValue, GivesData, GivesPred, Fits, Admits,
         ShapeOf, DataUses, PredUses, FuValue, DataOutOf, PredOutOf, RequestOf;
    var dataCodes, predCodes;
    data, dataCodes := CheckPorts(ctrl.dataW0, ctrl.dataW0Addr, fu.data, ctrl.dataW1, ctrl.dataW1Addr, dataSource);
    preds, predCodes := CheckPorts(ctrl.predW0, ctrl.predW0Addr, fu.pred, ctrl.predW1, ctrl.predW1Addr, predSource);
    codes := dataCodes + predCodes;
  }

  // ----- Switch boxes -----

  // A side can be driven, and with a result where it asks for the function unit's.
  ghost predicate Routable<S(!new), V(!new)>(route: RouteControl<S>, read: S -> Reading<V>, result: Option<V>) {
    route.we ==>
      && !route.src.NoRoute?
      && (route.src.FuResult? ==> result.Some?)
      && (route.src.From? ==> |read(route.src.source).codes| == 0)
  }

  ghost function Routed<S(!new), V(!new)>(route: RouteControl<S>, read: S -> Reading<V>, result: Option<V>): Option<V> {
    if route.src.From? then read(route.src.source).value else result
  }

  method CheckRoutes<S(!new), V(!new)>(routes: Sides<RouteControl<S>>, read: S -> Reading<V>, result: Option<V>)
    returns (out: map<Direction, Option<V>>, codes: seq<Code>)
    ensures |codes| == 0 <==> forall d: Direction :: Routable(routes.At(d), read, result)
    ensures |codes| == 0 ==> forall d: Direction :: d in out <==> routes.At(d).we
    ensures |codes| == 0 ==> forall d: Direction :: d in out ==> out[d] == Routed(routes.At(d), read, result)
  {
    GoldenTile.AllDirections();
    out, codes := map[], [];
    for i := 0 to |GoldenTile.DIRECTIONS|
      invariant |codes| == 0 <==> forall j :: 0 <= j < i ==> Routable(routes.At(GoldenTile.DIRECTIONS[j]), read, result)
      invariant |codes| == 0 ==> forall d :: d in out <==> d in GoldenTile.DIRECTIONS[..i] && routes.At(d).we
      invariant |codes| == 0 ==> forall d :: d in out ==> out[d] == Routed(routes.At(d), read, result)
    {
      var d := GoldenTile.DIRECTIONS[i];
      var route := routes.At(d);
      if route.we {
        match route.src {
          case NoRoute =>
            codes := codes + [UnsupportedControl];
          case FuResult =>
            if result.None? {
              codes := codes + [UnsupportedControl];
            } else {
              out := out[d := result];
            }
          case From(source) =>
            codes := codes + read(source).codes;
            out := out[d := read(source).value];
        }
      }
    }
    assert GoldenTile.DIRECTIONS[..|GoldenTile.DIRECTIONS|] == GoldenTile.DIRECTIONS;
    if |codes| == 0 {
      forall d: Direction
        ensures Routable(routes.At(d), read, result)
      {
        assert d in GoldenTile.DIRECTIONS;
      }
    }
  }

  // Every side that asks for the function unit's result gets one.
  ghost predicate ResultsRouted<S(!new)>(routes: Sides<RouteControl<S>>, given: bool) {
    forall d: Direction :: routes.At(d).we && routes.At(d).src.FuResult? ==> given
  }

  lemma SidesRoutable<S(!new), V(!new)>(routes: Sides<RouteControl<S>>, read: S -> Reading<V>, result: Option<V>)
    ensures (forall d: Direction :: Routable(routes.At(d), read, result)) <==>
      && RoutesLegal(routes) && ResultsRouted(routes, result.Some?)
      && forall src :: src in RouteSources(routes) ==> |read(src).codes| == 0
  {
    forall d: Direction
      ensures Routable(routes.At(d), read, result) <==>
        (routes.At(d).we ==> !routes.At(d).src.NoRoute?) &&
        (routes.At(d).we && routes.At(d).src.FuResult? ==> result.Some?) &&
        forall src :: src in RouteSourceOf(routes.At(d)) ==> |read(src).codes| == 0
    {
    }
    forall src
      ensures src in RouteSources(routes) <==> exists d: Direction :: src in RouteSourceOf(routes.At(d))
    {
      GoldenTile.SourceOfSide(routes, src);
    }
  }

  // Reading all route sources is clean exactly where the golden tile finds them.
  lemma RoutesAgree(c: CheckedTile, given: CheckedInputs, ctrl: TileControl, tile: TileState, inputs: TileInputs)
    requires Settled(c, given, ctrl, tile, inputs)
    ensures forall src :: src in RouteSources(ctrl.dataRoutes) ==>
      (|ReadData(c, given, ctrl, src).codes| == 0 <==> DataAvailable(ShapeOf(tile, inputs), ctrl, src)) &&
      (|ReadData(c, given, ctrl, src).codes| == 0 ==>
         ReadData(c, given, ctrl, src).value == Some(DataValue(tile, inputs, ctrl, src)))
    ensures forall src :: src in RouteSources(ctrl.predRoutes) ==>
      (|ReadPred(c, given, ctrl, src).codes| == 0 <==> PredAvailable(ShapeOf(tile, inputs), ctrl, src)) &&
      (|ReadPred(c, given, ctrl, src).codes| == 0 ==>
         ReadPred(c, given, ctrl, src).value == Some(PredValue(tile, inputs, ctrl, src)))
  {
    hide Settled, ReadData, ReadPred, DataAvailable, PredAvailable, DataValue, PredValue, Fits, Admits, ShapeOf, RouteSources;
    SettledFits(c, given, ctrl, tile, inputs);
    forall src | src in RouteSources(ctrl.dataRoutes)
      ensures |ReadData(c, given, ctrl, src).codes| == 0 <==> DataAvailable(ShapeOf(tile, inputs), ctrl, src)
      ensures |ReadData(c, given, ctrl, src).codes| == 0 ==>
        ReadData(c, given, ctrl, src).value == Some(DataValue(tile, inputs, ctrl, src))
    {
      DataReadAgrees(c, given, ctrl, tile, inputs, src);
    }
    forall src | src in RouteSources(ctrl.predRoutes)
      ensures |ReadPred(c, given, ctrl, src).codes| == 0 <==> PredAvailable(ShapeOf(tile, inputs), ctrl, src)
      ensures |ReadPred(c, given, ctrl, src).codes| == 0 ==>
        ReadPred(c, given, ctrl, src).value == Some(PredValue(tile, inputs, ctrl, src))
    {
      PredReadAgrees(c, given, ctrl, tile, inputs, src);
    }
  }

  lemma SettledFits(c: CheckedTile, given: CheckedInputs, ctrl: TileControl, tile: TileState, inputs: TileInputs)
    requires Settled(c, given, ctrl, tile, inputs)
    ensures Admits(c, ctrl) && Fits(tile, ctrl)
  {
  }

  lemma RoutedData(ctrl: TileControl, fu: FuOutput, tile: TileState, inputs: TileInputs, read: DataSource -> Reading<Word>,
                   out: map<Direction, Option<Word>>)
    requires Fits(tile, ctrl) && fu == FuValue(tile, inputs, ctrl)
    requires forall d: Direction :: Routable(ctrl.dataRoutes.At(d), read, fu.data)
    requires forall src :: src in RouteSources(ctrl.dataRoutes) ==> read(src).value == Some(DataValue(tile, inputs, ctrl, src))
    requires forall d: Direction :: d in out <==> ctrl.dataRoutes.At(d).we
    requires forall d: Direction :: d in out ==> out[d] == Routed(ctrl.dataRoutes.At(d), read, fu.data)
    ensures out == LiftMap(DataOutOf(tile, inputs, ctrl))
  {
    hide Fits, FuValue, DataValue, RouteSources;
    forall d: Direction | d in out
      ensures out[d] == Some(DataRouteValue(tile, inputs, ctrl, ctrl.dataRoutes.At(d).src))
    {
      var route := ctrl.dataRoutes.At(d);
      assert Routable(route, read, fu.data);
      if route.src.From? {
        SideSource(ctrl.dataRoutes, d);
      }
    }
  }

  lemma RoutedPreds(ctrl: TileControl, fu: FuOutput, tile: TileState, inputs: TileInputs, read: PredSource -> Reading<bool>,
                    out: map<Direction, Option<bool>>)
    requires Fits(tile, ctrl) && fu == FuValue(tile, inputs, ctrl)
    requires forall d: Direction :: Routable(ctrl.predRoutes.At(d), read, fu.pred)
    requires forall src :: src in RouteSources(ctrl.predRoutes) ==> read(src).value == Some(PredValue(tile, inputs, ctrl, src))
    requires forall d: Direction :: d in out <==> ctrl.predRoutes.At(d).we
    requires forall d: Direction :: d in out ==> out[d] == Routed(ctrl.predRoutes.At(d), read, fu.pred)
    ensures out == LiftMap(PredOutOf(tile, inputs, ctrl))
  {
    hide Fits, FuValue, PredValue, RouteSources;
    forall d: Direction | d in out
      ensures out[d] == Some(PredRouteValue(tile, inputs, ctrl, ctrl.predRoutes.At(d).src))
    {
      var route := ctrl.predRoutes.At(d);
      assert Routable(route, read, fu.pred);
      if route.src.From? {
        SideSource(ctrl.predRoutes, d);
      }
    }
  }

  lemma SideSource<S(!new)>(routes: Sides<RouteControl<S>>, d: Direction)
    requires routes.At(d).we && routes.At(d).src.From?
    ensures routes.At(d).src.source in RouteSources(routes)
  {
    GoldenTile.SourceOfSide(routes, routes.At(d).src.source);
    assert routes.At(d).src.source in RouteSourceOf(routes.At(d));
  }

  method CheckBoth(c: CheckedTile, given: CheckedInputs, ctrl: TileControl, fu: FuOutput, ghost tile: TileState,
                   ghost inputs: TileInputs)
    returns (dataOut: map<Direction, Option<Word>>, predOut: map<Direction, Option<bool>>, codes: seq<Code>)
    requires Admits(c, ctrl) && (fu.data.Some? <==> GivesData(ctrl.op)) && (fu.pred.Some? <==> GivesPred(ctrl.op))
    ensures Settled(c, given, ctrl, tile, inputs) ==>
      (|codes| == 0 <==>
         && RoutesLegal(ctrl.dataRoutes) && RoutesLegal(ctrl.predRoutes)
         && ResultsRouted(ctrl.dataRoutes, GivesData(ctrl.op)) && ResultsRouted(ctrl.predRoutes, GivesPred(ctrl.op))
         && GoldenTile.SourcesAvailable(tile, inputs, ctrl, RouteSources(ctrl.dataRoutes), RouteSources(ctrl.predRoutes)))
    ensures Settled(c, given, ctrl, tile, inputs) && |codes| == 0 && fu == FuValue(tile, inputs, ctrl) ==>
      dataOut == LiftMap(DataOutOf(tile, inputs, ctrl)) && predOut == LiftMap(PredOutOf(tile, inputs, ctrl))
  {
    var readData := src => ReadData(c, given, ctrl, src);
    var readPred := src => ReadPred(c, given, ctrl, src);
    hide Settled, ReadData, ReadPred, DataAvailable, PredAvailable, DataValue, PredValue, GivesData, GivesPred, Fits, Admits,
         ShapeOf, RouteSources, RoutesLegal, ResultsRouted, FuValue;
    SidesRoutable(ctrl.dataRoutes, readData, fu.data);
    SidesRoutable(ctrl.predRoutes, readPred, fu.pred);
    var dataCodes, predCodes;
    dataOut, dataCodes := CheckRoutes(ctrl.dataRoutes, readData, fu.data);
    predOut, predCodes := CheckRoutes(ctrl.predRoutes, readPred, fu.pred);
    codes := dataCodes + predCodes;
    if Settled(c, given, ctrl, tile, inputs) {
      SettledFits(c, given, ctrl, tile, inputs);
      RoutesAgree(c, given, ctrl, tile, inputs);
      if |codes| == 0 && fu == FuValue(tile, inputs, ctrl) {
        RoutedData(ctrl, fu, tile, inputs, readData, dataOut);
        RoutedPreds(ctrl, fu, tile, inputs, readPred, predOut);
      }
    }
  }

  // ----- Memory -----

  ghost predicate LsuLegal(tile: TileState, inputs: TileInputs, ctrl: TileControl, hasLsu: bool, scratchDepth: nat)
    requires Fits(tile, ctrl)
  {
    && hasLsu && ctrl.lsuOp != LsuReserved && !(ctrl.lsuOp == LsuLoad && ctrl.commitEnable)
    && GoldenTile.SourcesAvailable(tile, inputs, ctrl,
                                   {ctrl.lsuAddrSrc} + (if ctrl.lsuOp == LsuStore then {ctrl.lsuStoreSrc} else {}),
                                   if ctrl.lsuOp == LsuStore && ctrl.commitEnable then {ctrl.commitSrc} else {})
    && AddressLegal(tile, inputs, ctrl, scratchDepth)
  }

  // What is stored, and whether it is, once the address is known.
  method CheckStore(c: CheckedTile, given: CheckedInputs, ctrl: TileControl, address: nat, ghost tile: TileState,
                    ghost inputs: TileInputs)
    returns (request: Option<CheckedRequest>, codes: seq<Code>)
    requires Admits(c, ctrl) && ctrl.lsuOp == LsuStore
    ensures request.Some? ==> request.value.address == address
    ensures Settled(c, given, ctrl, tile, inputs) ==>
      (|codes| == 0 <==>
         GoldenTile.SourcesAvailable(tile, inputs, ctrl, {ctrl.lsuStoreSrc},
                                     if ctrl.commitEnable then {ctrl.commitSrc} else {}))
    ensures Settled(c, given, ctrl, tile, inputs) && |codes| == 0 && address == AddressOf(tile, inputs, ctrl) ==>
      request == LiftRequest(RequestOf(tile, inputs, ctrl))
  {
    var data := ReadData(c, given, ctrl, ctrl.lsuStoreSrc);
    codes := data.codes;
    var commit := true;
    if ctrl.commitEnable {
      var pred := ReadPred(c, given, ctrl, ctrl.commitSrc);
      codes := codes + pred.codes;
      commit := pred.value.Some? && pred.value.value != ctrl.commitInvert;
      if Settled(c, given, ctrl, tile, inputs) {
        PredReadAgrees(c, given, ctrl, tile, inputs, ctrl.commitSrc);
      }
    }
    request := if commit then Some(StoreRequest(address, data.value)) else None;
    if Settled(c, given, ctrl, tile, inputs) {
      DataReadAgrees(c, given, ctrl, tile, inputs, ctrl.lsuStoreSrc);
    }
    hide Settled, ReadData, ReadPred, DataAvailable, PredAvailable, DataValue, PredValue, Fits, Admits, ShapeOf, DataUses,
         PredUses;
  }

  method CheckLsu(c: CheckedTile, given: CheckedInputs, ctrl: TileControl, hasLsu: bool, scratchDepth: nat,
                  ghost tile: TileState, ghost inputs: TileInputs)
    returns (request: Option<CheckedRequest>, codes: seq<Code>)
    requires Admits(c, ctrl) && ctrl.lsuOp != LsuNone
    ensures request.Some? ==> hasLsu && request.value.address < scratchDepth
    ensures Settled(c, given, ctrl, tile, inputs) ==>
      (|codes| == 0 <==> LsuLegal(tile, inputs, ctrl, hasLsu, scratchDepth)) &&
      (|codes| == 0 ==> request == LiftRequest(RequestOf(tile, inputs, ctrl)))
  {
    request, codes := None, [];
    if !hasLsu {
      return request, [NonLsuOperation];
    }
    if ctrl.lsuOp == LsuReserved || (ctrl.lsuOp == LsuLoad && ctrl.commitEnable) {
      return request, [UnsupportedControl];
    }
    var address := ReadData(c, given, ctrl, ctrl.lsuAddrSrc);
    if Settled(c, given, ctrl, tile, inputs) {
      DataReadAgrees(c, given, ctrl, tile, inputs, ctrl.lsuAddrSrc);
    }
    codes := address.codes;
    hide Settled, ReadData, ReadPred, DataAvailable, PredAvailable, DataValue, PredValue, Fits, Admits, ShapeOf, DataUses,
         PredUses;
    if address.value.Some? && address.value.value >= scratchDepth {
      codes := codes + [AddressRange];
    } else if address.value.Some? {
      if ctrl.lsuOp == LsuLoad {
        request := Some(LoadRequest(address.value.value));
      } else {
        var storeCodes;
        request, storeCodes := CheckStore(c, given, ctrl, address.value.value, tile, inputs);
        codes := codes + storeCodes;
      }
    }
  }

  // ----- The whole tile -----

  /** Beyond what the golden tile insists on: no side asks for a result the function unit does not give. */
  ghost predicate Strict(ctrl: TileControl) {
    ResultsRouted(ctrl.dataRoutes, GivesData(ctrl.op)) && ResultsRouted(ctrl.predRoutes, GivesPred(ctrl.op))
  }

  /** Every violation of one tile in one cycle: none exactly where the golden tile runs and the control is strict. */
  method CheckTile(c: CheckedTile, given: CheckedInputs, ctrl: TileControl, hasLsu: bool, scratchDepth: nat,
                   ghost tile: TileState, ghost inputs: TileInputs)
    returns (effects: CheckedEffects, codes: seq<Code>)
    requires Admits(c, ctrl)
    ensures effects.request.Some? ==> hasLsu && effects.request.value.address < scratchDepth
    ensures Agrees(c, given, ctrl, tile, inputs) ==>
      (|codes| == 0 <==>
         TileLegal(ShapeOf(tile, inputs), ctrl, hasLsu) && AddressLegal(tile, inputs, ctrl, scratchDepth) && Strict(ctrl))
    ensures Agrees(c, given, ctrl, tile, inputs) && |codes| == 0 ==> effects == LiftEffects(EffectsOf(tile, inputs, ctrl))
  {
    hide TileLegal, DataAvailable, PredAvailable, DataValue, PredValue, Fits, Admits, ShapeOf, ExecuteFu, RequestOf,
         RouteSources, GivesData, GivesPred, DataReads, PredReads, DataWrites, PredWrites, LiftMap, LiftRequest, ReadData,
         ReadPred, DataUses, PredUses, FuValue, DataOutOf, PredOutOf, ResultsRouted, RoutesLegal, Agrees, RegistersReady;
    if Agrees(c, given, ctrl, tile, inputs) {
      AgreesFits(c, given, ctrl, tile, inputs);
      if !RegistersReady(c, ctrl) {
        NotReady(c, given, ctrl, tile, inputs, hasLsu);
      }
      IdleRequest(tile, inputs, ctrl);
      GoldenTile.UsesByPart(tile, inputs, ctrl, hasLsu);
    }
    var registers := CheckRegisters(c, ctrl);
    var fu, operands := CheckOperands(c, given, ctrl, tile, inputs);
    var dataWrites, predWrites, ports := CheckWrites(c, given, ctrl, fu, tile, inputs);
    var dataOut, predOut, routes := CheckBoth(c, given, ctrl, fu, tile, inputs);
    var request: Option<CheckedRequest>, memory: seq<Code> := None, [];
    if ctrl.lsuOp != LsuNone {
      request, memory := CheckLsu(c, given, ctrl, hasLsu, scratchDepth, tile, inputs);
    }
    codes := registers + operands + ports + routes + memory;
    effects := TileEffects(dataWrites, predWrites, dataOut, predOut, request);
  }

  // A tile that would read an unwritten register does not run.
  lemma NotReady(c: CheckedTile, given: CheckedInputs, ctrl: TileControl, tile: TileState, inputs: TileInputs, hasLsu: bool)
    requires Agrees(c, given, ctrl, tile, inputs) && Admits(c, ctrl) && !RegistersReady(c, ctrl)
    ensures !TileLegal(ShapeOf(tile, inputs), ctrl, hasLsu)
  {
    hide DataAvailable, PredAvailable, ControlLegal, DataReads, PredReads;
    ValidKnown(c, given, ctrl, tile, inputs);
    if r :| r in DataReads(ctrl) && !c.dataValid[r] {
      DataUnready(ShapeOf(tile, inputs), ctrl, r);
    } else {
      var r :| r in PredReads(ctrl) && !c.predValid[r];
      PredUnready(ShapeOf(tile, inputs), ctrl, r);
    }
  }

  lemma ValidKnown(c: CheckedTile, given: CheckedInputs, ctrl: TileControl, tile: TileState, inputs: TileInputs)
    requires Agrees(c, given, ctrl, tile, inputs) && Admits(c, ctrl)
    ensures c.dataValid == ShapeOf(tile, inputs).dataValid && c.predValid == ShapeOf(tile, inputs).predValid
    ensures forall r :: r in DataReads(ctrl) ==> r < |c.dataValid|
    ensures forall r :: r in PredReads(ctrl) ==> r < |c.predValid|
  {
    hide DataUses, PredUses;
  }

  lemma DataUnready(shape: TileShape, ctrl: TileControl, r: nat)
    requires r in DataReads(ctrl) && r < |shape.dataValid| && !shape.dataValid[r]
    ensures exists src :: src in DataUses(ctrl) && !DataAvailable(shape, ctrl, src)
  {
    hide DataUses;
    var src := if DataRegA in DataUses(ctrl) && r == ctrl.dataReadA then DataRegA else DataRegB;
    assert src in DataUses(ctrl) && !DataAvailable(shape, ctrl, src);
  }

  lemma PredUnready(shape: TileShape, ctrl: TileControl, r: nat)
    requires r in PredReads(ctrl) && r < |shape.predValid| && !shape.predValid[r]
    ensures exists src :: src in PredUses(ctrl) && !PredAvailable(shape, ctrl, src)
  {
    hide PredUses;
    var src := if PredRegA in PredUses(ctrl) && r == ctrl.predReadA then PredRegA else PredRegB;
    assert src in PredUses(ctrl) && !PredAvailable(shape, ctrl, src);
  }

  lemma IdleRequest(tile: TileState, inputs: TileInputs, ctrl: TileControl)
    requires Fits(tile, ctrl)
    ensures ctrl.lsuOp == LsuNone ==> LiftRequest(RequestOf(tile, inputs, ctrl)) == None
  {
  }

  lemma AgreesFits(c: CheckedTile, given: CheckedInputs, ctrl: TileControl, tile: TileState, inputs: TileInputs)
    requires Agrees(c, given, ctrl, tile, inputs)
    ensures Fits(tile, ctrl)
  {
  }

  // ----- A control the machine runs and the check refuses -----

  // An idle tile that sends north the result of no operation.
  function ResultlessRoute(): TileControl {
    var none := RouteControl(false, NoRoute);
    DefaultControl().(dataRoutes := Sides(RouteControl(true, FuResult), none, none, none))
  }

  function SmallTile(): TileState {
    TileState([0], [false], [false], [false], [0])
  }

  function NoInputs(): TileInputs {
    TileInputs(map[], map[], None)
  }

  lemma ResultlessRouteRuns()
    ensures Fits(SmallTile(), ResultlessRoute())
    ensures TileLegal(ShapeOf(SmallTile(), NoInputs()), ResultlessRoute(), false)
    ensures AddressLegal(SmallTile(), NoInputs(), ResultlessRoute(), 0) && !Strict(ResultlessRoute())
    ensures EffectsOf(SmallTile(), NoInputs(), ResultlessRoute()).dataOut == map[North := 0]
  {
    var ctrl := ResultlessRoute();
    assert ctrl.dataRoutes.At(North).we && ctrl.dataRoutes.At(North).src.FuResult?;
    assert forall d: Direction :: ctrl.dataRoutes.At(d).we ==> d == North;
    assert DataOutOf(SmallTile(), NoInputs(), ctrl) == map[North := 0];
  }

  /** The machine sends a 0 on; the check reports the control. */
  method ResultlessRouteIsRefused() returns (effects: Option<TileEffects>, codes: seq<Code>)
    ensures effects.Some? && effects.value.dataOut == map[North := 0] && |codes| > 0
  {
    ResultlessRouteRuns();
    hide *;
    effects := GoldenTile.StepTile(SmallTile(), ResultlessRoute(), false, NoInputs(), 0);
    var checked;
    LiftedAgrees(SmallTile(), NoInputs(), ResultlessRoute());
    checked, codes := CheckTile(LiftTile(SmallTile()), LiftInputs(NoInputs()), ResultlessRoute(), false, 0, SmallTile(),
                                NoInputs());
  }

  lemma LiftedAgrees(tile: TileState, inputs: TileInputs, ctrl: TileControl)
    requires Fits(tile, ctrl)
    ensures Admits(LiftTile(tile), ctrl) && Agrees(LiftTile(tile), LiftInputs(inputs), ctrl, tile, inputs)
  {
  }
}
