// The control word: every field of a tile's control in its place, and back.

module ControlCodec {
  import opened Wrappers
  import opened Mesh
  import opened Tile
  import opened BitFields
  import opened ControlNames

  /** The widths of a target's control word, and the 32-bit chunks it is stored in. */
  datatype ControlTarget = ControlTarget(
    dataWidth: nat,
    predWidth: nat,
    constWidth: nat,
    rawWidth: nat,
    physicalWidth: nat,
    chunks: nat)
  {
    // All fields together make up the raw word, which the chunks hold.
    predicate Valid() {
      && rawWidth == ExecWidth() + RfWidth(dataWidth) + RfWidth(predWidth) + 20 + 20 + constWidth + 16
      && rawWidth <= physicalWidth == 32 * chunks
    }

    function ExecWidth(): nat {
      6 + 2 * 4 + 2 * 4 + 2 * dataWidth + 2 * predWidth
    }
  }

  function RfWidth(addressWidth: nat): nat {
    2 + 2 * addressWidth + 4
  }

  // ----- Groups of fields -----

  datatype ExecFields = ExecFields(op: FuOp, srcA: DataSource, srcB: DataSource, srcP0: PredSource, srcP1: PredSource,
                                   dataReadA: nat, dataReadB: nat, predReadA: nat, predReadB: nat)

  datatype RfFields<S> = RfFields(w0: bool, w0Addr: nat, w1: bool, w1Addr: nat, w1Src: S)

  datatype LsuFields = LsuFields(op: LsuOp, addrSrc: DataSource, storeSrc: DataSource, commitEnable: bool, commitInvert: bool,
                                 commitSrc: PredSource)

  function ExecOf(ctrl: TileControl): ExecFields {
    ExecFields(ctrl.op, ctrl.srcA, ctrl.srcB, ctrl.srcP0, ctrl.srcP1, ctrl.dataReadA, ctrl.dataReadB, ctrl.predReadA,
               ctrl.predReadB)
  }

  function DataRfOf(ctrl: TileControl): RfFields<DataSource> {
    RfFields(ctrl.dataW0, ctrl.dataW0Addr, ctrl.dataW1, ctrl.dataW1Addr, ctrl.dataW1Src)
  }

  function PredRfOf(ctrl: TileControl): RfFields<PredSource> {
    RfFields(ctrl.predW0, ctrl.predW0Addr, ctrl.predW1, ctrl.predW1Addr, ctrl.predW1Src)
  }

  function LsuOf(ctrl: TileControl): LsuFields {
    LsuFields(ctrl.lsuOp, ctrl.lsuAddrSrc, ctrl.lsuStoreSrc, ctrl.commitEnable, ctrl.commitInvert, ctrl.commitSrc)
  }

  function Assemble(exec: ExecFields, data: RfFields<DataSource>, pred: RfFields<PredSource>,
                    dataRoutes: Sides<RouteControl<DataSource>>, predRoutes: Sides<RouteControl<PredSource>>, constAddr: nat,
                    lsu: LsuFields): TileControl
  {
    TileControl(exec.op, exec.srcA, exec.srcB, exec.srcP0, exec.srcP1, exec.dataReadA, exec.dataReadB, exec.predReadA,
                exec.predReadB, data.w0, data.w0Addr, data.w1, data.w1Addr, data.w1Src, pred.w0, pred.w0Addr, pred.w1,
                pred.w1Addr, pred.w1Src, dataRoutes, predRoutes, constAddr, lsu.op, lsu.addrSrc, lsu.storeSrc,
                lsu.commitEnable, lsu.commitInvert, lsu.commitSrc)
  }

  // ----- The word as fields on top of one another -----

  function PutName<T(!new)>(naming: Naming<T>, x: T, tail: nat): nat {
    Put(naming.value(x), naming.width, tail)
  }

  /** What was read, None where a number names nothing, and the bits above it. */
  datatype Parsed<T> = Parsed(value: Option<T>, rest: nat)

  function TakeName<T(!new)>(naming: Naming<T>, word: nat): Parsed<T> {
    Parsed(naming.byValue(Low(word, naming.width)), High(word, naming.width))
  }

  function PutBit(b: bool, tail: nat): nat {
    Put(Bit(b), 1, tail)
  }

  datatype ParsedBit = ParsedBit(value: bool, rest: nat)

  function TakeBit(word: nat): ParsedBit {
    ParsedBit(Low(word, 1) != 0, High(word, 1))
  }

  lemma BitBack(b: bool, tail: nat)
    ensures TakeBit(PutBit(b, tail)) == ParsedBit(b, tail)
  {
    hide Put, Low, High;
    Powers();
    PutLow(Bit(b), 1, tail);
    Fitting(Bit(b), 1);
  }

  lemma BitAgain(word: nat)
    ensures PutBit(TakeBit(word).value, TakeBit(word).rest) == word
  {
    hide Put, Low, High;
    Powers();
    LowHigh(word, 1);
  }

  lemma NameBack<T(!new)>(naming: Naming<T>, x: T, tail: nat)
    requires naming.Faithful()
    ensures TakeName(naming, PutName(naming, x, tail)) == Parsed(Some(x), tail)
  {
    hide Put, Low, High;
    PutLow(naming.value(x), naming.width, tail);
    Fitting(naming.value(x), naming.width);
  }

  lemma NameAgain<T(!new)>(naming: Naming<T>, word: nat)
    requires naming.Faithful() && TakeName(naming, word).value.Some?
    ensures PutName(naming, TakeName(naming, word).value.value, TakeName(naming, word).rest) == word
  {
    hide Put, Low, High;
    LowHigh(word, naming.width);
  }

  // ----- Execution fields -----

  function PutExec(f: ExecFields, t: ControlTarget, tail: nat): nat {
    PutName(OpNaming(), f.op,
      PutName(DataNaming(), f.srcA,
        PutName(DataNaming(), f.srcB,
          PutName(PredNaming(), f.srcP0,
            PutName(PredNaming(), f.srcP1,
              Put(f.dataReadA, t.dataWidth,
                Put(f.dataReadB, t.dataWidth,
                  Put(f.predReadA, t.predWidth,
                    Put(f.predReadB, t.predWidth, tail)))))))))
  }

  function TakeExec(word: nat, t: ControlTarget): Parsed<ExecFields> {
    var op := TakeName(OpNaming(), word);
    var a := TakeName(DataNaming(), op.rest);
    var b := TakeName(DataNaming(), a.rest);
    var p0 := TakeName(PredNaming(), b.rest);
    var p1 := TakeName(PredNaming(), p0.rest);
    var r1 := High(p1.rest, t.dataWidth);
    var r2 := High(r1, t.dataWidth);
    var r3 := High(r2, t.predWidth);
    Parsed(
      if op.value.Some? && a.value.Some? && b.value.Some? && p0.value.Some? && p1.value.Some?
      then Some(ExecFields(op.value.value, a.value.value, b.value.value, p0.value.value, p1.value.value,
                           Low(p1.rest, t.dataWidth), Low(r1, t.dataWidth), Low(r2, t.predWidth), Low(r3, t.predWidth)))
      else None,
      High(r3, t.predWidth))
  }

  // Addresses lose the bits their fields have no room for.
  function CutExec(f: ExecFields, t: ControlTarget): ExecFields {
    f.(dataReadA := Low(f.dataReadA, t.dataWidth), dataReadB := Low(f.dataReadB, t.dataWidth),
       predReadA := Low(f.predReadA, t.predWidth), predReadB := Low(f.predReadB, t.predWidth))
  }

  lemma ExecBack(f: ExecFields, t: ControlTarget, tail: nat)
    ensures TakeExec(PutExec(f, t, tail), t) == Parsed(Some(CutExec(f, t)), tail)
  {
    hide Put, Low, High, PutName, TakeName, OpNaming, DataNaming, PredNaming;
    var x3 := Put(f.predReadB, t.predWidth, tail);
    var x2 := Put(f.predReadA, t.predWidth, x3);
    var x1 := Put(f.dataReadB, t.dataWidth, x2);
    var x0 := Put(f.dataReadA, t.dataWidth, x1);
    PutLow(f.predReadB, t.predWidth, tail);
    PutLow(f.predReadA, t.predWidth, x3);
    PutLow(f.dataReadB, t.dataWidth, x2);
    PutLow(f.dataReadA, t.dataWidth, x1);
    var y4 := PutName(PredNaming(), f.srcP1, x0);
    var y3 := PutName(PredNaming(), f.srcP0, y4);
    var y2 := PutName(DataNaming(), f.srcB, y3);
    var y1 := PutName(DataNaming(), f.srcA, y2);
    NameBack(PredNaming(), f.srcP1, x0);
    NameBack(PredNaming(), f.srcP0, y4);
    NameBack(DataNaming(), f.srcB, y3);
    NameBack(DataNaming(), f.srcA, y2);
    NameBack(OpNaming(), f.op, y1);
  }

  lemma ExecAgain(word: nat, t: ControlTarget)
    requires TakeExec(word, t).value.Some?
    ensures PutExec(TakeExec(word, t).value.value, t, TakeExec(word, t).rest) == word
  {
    hide Put, Low, High, PutName, TakeName, OpNaming, DataNaming, PredNaming;
    var op := TakeName(OpNaming(), word);
    var a := TakeName(DataNaming(), op.rest);
    var b := TakeName(DataNaming(), a.rest);
    var p0 := TakeName(PredNaming(), b.rest);
    var p1 := TakeName(PredNaming(), p0.rest);
    var r1 := High(p1.rest, t.dataWidth);
    var r2 := High(r1, t.dataWidth);
    var r3 := High(r2, t.predWidth);
    NameAgain(OpNaming(), word);
    NameAgain(DataNaming(), op.rest);
    NameAgain(DataNaming(), a.rest);
    NameAgain(PredNaming(), b.rest);
    NameAgain(PredNaming(), p0.rest);
    LowHigh(p1.rest, t.dataWidth);
    LowHigh(r1, t.dataWidth);
    LowHigh(r2, t.predWidth);
    LowHigh(r3, t.predWidth);
  }

  // ----- Register file fields -----

  function PutRf<S(!new)>(f: RfFields<S>, width: nat, naming: Naming<S>, tail: nat): nat {
    PutBit(f.w0,
      Put(f.w0Addr, width,
        PutBit(f.w1,
          Put(f.w1Addr, width,
            PutName(naming, f.w1Src, tail)))))
  }

  function TakeRf<S(!new)>(word: nat, width: nat, naming: Naming<S>): Parsed<RfFields<S>> {
    var w0 := TakeBit(word);
    var r1 := High(w0.rest, width);
    var w1 := TakeBit(r1);
    var r2 := High(w1.rest, width);
    var src := TakeName(naming, r2);
    Parsed(
      if src.value.Some?
      then Some(RfFields(w0.value, Low(w0.rest, width), w1.value, Low(w1.rest, width), src.value.value)) else None,
      src.rest)
  }

  function CutRf<S>(f: RfFields<S>, width: nat): RfFields<S> {
    f.(w0Addr := Low(f.w0Addr, width), w1Addr := Low(f.w1Addr, width))
  }

  lemma RfBack<S(!new)>(f: RfFields<S>, width: nat, naming: Naming<S>, tail: nat)
    requires naming.Faithful()
    ensures TakeRf(PutRf(f, width, naming, tail), width, naming) == Parsed(Some(CutRf(f, width)), tail)
  {
    hide Put, Low, High, PutName, TakeName, PutBit, TakeBit;
    var x3 := PutName(naming, f.w1Src, tail);
    var x2 := Put(f.w1Addr, width, x3);
    var x1 := PutBit(f.w1, x2);
    var x0 := Put(f.w0Addr, width, x1);
    NameBack(naming, f.w1Src, tail);
    PutLow(f.w1Addr, width, x3);
    BitBack(f.w1, x2);
    PutLow(f.w0Addr, width, x1);
    BitBack(f.w0, x0);
  }

  lemma RfAgain<S(!new)>(word: nat, width: nat, naming: Naming<S>)
    requires naming.Faithful() && TakeRf(word, width, naming).value.Some?
    ensures PutRf(TakeRf(word, width, naming).value.value, width, naming, TakeRf(word, width, naming).rest) == word
  {
    hide Put, Low, High, PutName, TakeName, PutBit, TakeBit;
    var w0 := TakeBit(word);
    var r1 := High(w0.rest, width);
    var w1 := TakeBit(r1);
    var r2 := High(w1.rest, width);
    BitAgain(word);
    LowHigh(w0.rest, width);
    BitAgain(r1);
    LowHigh(w1.rest, width);
    NameAgain(naming, r2);
  }

  // ----- Routes -----

  function PutRoute<S(!new)>(route: RouteControl<S>, naming: Naming<RouteSource<S>>, tail: nat): nat {
    PutBit(route.we, PutName(naming, route.src, tail))
  }

  function TakeRoute<S(!new)>(word: nat, naming: Naming<RouteSource<S>>): Parsed<RouteControl<S>> {
    var we := TakeBit(word);
    var src := TakeName(naming, we.rest);
    Parsed(if src.value.Some? then Some(RouteControl(we.value, src.value.value)) else None, src.rest)
  }

  function PutRoutes<S(!new)>(routes: Sides<RouteControl<S>>, naming: Naming<RouteSource<S>>, tail: nat): nat {
    PutRoute(routes.north, naming,
      PutRoute(routes.south, naming,
        PutRoute(routes.east, naming,
          PutRoute(routes.west, naming, tail))))
  }

  function TakeRoutes<S(!new)>(word: nat, naming: Naming<RouteSource<S>>): Parsed<Sides<RouteControl<S>>> {
    var north := TakeRoute(word, naming);
    var south := TakeRoute(north.rest, naming);
    var east := TakeRoute(south.rest, naming);
    var west := TakeRoute(east.rest, naming);
    Parsed(
      if north.value.Some? && south.value.Some? && east.value.Some? && west.value.Some?
      then Some(Sides(north.value.value, south.value.value, east.value.value, west.value.value)) else None,
      west.rest)
  }

  lemma RouteBack<S(!new)>(route: RouteControl<S>, naming: Naming<RouteSource<S>>, tail: nat)
    requires naming.Faithful()
    ensures TakeRoute(PutRoute(route, naming, tail), naming) == Parsed(Some(route), tail)
  {
    hide PutName, TakeName, PutBit, TakeBit;
    NameBack(naming, route.src, tail);
    BitBack(route.we, PutName(naming, route.src, tail));
  }

  lemma RouteAgain<S(!new)>(word: nat, naming: Naming<RouteSource<S>>)
    requires naming.Faithful() && TakeRoute(word, naming).value.Some?
    ensures PutRoute(TakeRoute(word, naming).value.value, naming, TakeRoute(word, naming).rest) == word
  {
    hide PutName, TakeName, PutBit, TakeBit;
    BitAgain(word);
    NameAgain(naming, TakeBit(word).rest);
  }

  lemma RoutesBack<S(!new)>(routes: Sides<RouteControl<S>>, naming: Naming<RouteSource<S>>, tail: nat)
    requires naming.Faithful()
    ensures TakeRoutes(PutRoutes(routes, naming, tail), naming) == Parsed(Some(routes), tail)
  {
    hide PutRoute, TakeRoute;
    var x2 := PutRoute(routes.west, naming, tail);
    var x1 := PutRoute(routes.east, naming, x2);
    var x0 := PutRoute(routes.south, naming, x1);
    RouteBack(routes.west, naming, tail);
    RouteBack(routes.east, naming, x2);
    RouteBack(routes.south, naming, x1);
    RouteBack(routes.north, naming, x0);
  }

  lemma RoutesAgain<S(!new)>(word: nat, naming: Naming<RouteSource<S>>)
    requires naming.Faithful() && TakeRoutes(word, naming).value.Some?
    ensures PutRoutes(TakeRoutes(word, naming).value.value, naming, TakeRoutes(word, naming).rest) == word
  {
    hide PutRoute, TakeRoute;
    var north := TakeRoute(word, naming);
    var south := TakeRoute(north.rest, naming);
    var east := TakeRoute(south.rest, naming);
    RouteAgain(word, naming);
    RouteAgain(north.rest, naming);
    RouteAgain(south.rest, naming);
    RouteAgain(east.rest, naming);
  }

  // ----- Memory fields -----

  function PutLsu(f: LsuFields, tail: nat): nat {
    PutName(LsuNaming(), f.op,
      PutName(DataNaming(), f.addrSrc,
        PutName(DataNaming(), f.storeSrc,
          PutBit(f.commitEnable,
            PutBit(f.commitInvert,
              PutName(PredNaming(), f.commitSrc, tail))))))
  }

  function TakeLsu(word: nat): Parsed<LsuFields> {
    var op := TakeName(LsuNaming(), word);
    var address := TakeName(DataNaming(), op.rest);
    var store := TakeName(DataNaming(), address.rest);
    var enable := TakeBit(store.rest);
    var invert := TakeBit(enable.rest);
    var commit := TakeName(PredNaming(), invert.rest);
    Parsed(
      if op.value.Some? && address.value.Some? && store.value.Some? && commit.value.Some?
      then Some(LsuFields(op.value.value, address.value.value, store.value.value, enable.value, invert.value,
                          commit.value.value))
      else None,
      commit.rest)
  }

  lemma LsuBack(f: LsuFields, tail: nat)
    ensures TakeLsu(PutLsu(f, tail)) == Parsed(Some(f), tail)
  {
    hide PutName, TakeName, LsuNaming, DataNaming, PutBit, TakeBit, PredNaming;
    var x4 := PutName(PredNaming(), f.commitSrc, tail);
    var x3 := PutBit(f.commitInvert, x4);
    var x2 := PutBit(f.commitEnable, x3);
    var x1 := PutName(DataNaming(), f.storeSrc, x2);
    var x0 := PutName(DataNaming(), f.addrSrc, x1);
    NameBack(PredNaming(), f.commitSrc, tail);
    BitBack(f.commitInvert, x4);
    BitBack(f.commitEnable, x3);
    NameBack(DataNaming(), f.storeSrc, x2);
    NameBack(DataNaming(), f.addrSrc, x1);
    NameBack(LsuNaming(), f.op, x0);
  }

  lemma LsuAgain(word: nat)
    requires TakeLsu(word).value.Some?
    ensures PutLsu(TakeLsu(word).value.value, TakeLsu(word).rest) == word
  {
    hide PutName, TakeName, LsuNaming, DataNaming, PutBit, TakeBit, PredNaming;
    var op := TakeName(LsuNaming(), word);
    var address := TakeName(DataNaming(), op.rest);
    var store := TakeName(DataNaming(), address.rest);
    var enable := TakeBit(store.rest);
    var invert := TakeBit(enable.rest);
    NameAgain(LsuNaming(), word);
    NameAgain(DataNaming(), op.rest);
    NameAgain(DataNaming(), address.rest);
    BitAgain(store.rest);
    BitAgain(enable.rest);
    NameAgain(PredNaming(), invert.rest);
  }

  // ----- The whole word -----

  function WordOf(ctrl: TileControl, t: ControlTarget): nat {
    PutExec(ExecOf(ctrl), t,
      PutRf(DataRfOf(ctrl), t.dataWidth, DataNaming(),
        PutRf(PredRfOf(ctrl), t.predWidth, PredNaming(),
          PutRoutes(ctrl.dataRoutes, DataRouteNaming(),
            PutRoutes(ctrl.predRoutes, PredRouteNaming(),
              Put(ctrl.constAddr, t.constWidth,
                PutLsu(LsuOf(ctrl), 0)))))))
  }

  // The control of a word and the bits above its fields.
  function ControlOf(word: nat, t: ControlTarget): Parsed<TileControl> {
    var exec := TakeExec(word, t);
    var data := TakeRf(exec.rest, t.dataWidth, DataNaming());
    var pred := TakeRf(data.rest, t.predWidth, PredNaming());
    var dataRoutes := TakeRoutes(pred.rest, DataRouteNaming());
    var predRoutes := TakeRoutes(dataRoutes.rest, PredRouteNaming());
    var lsu := TakeLsu(High(predRoutes.rest, t.constWidth));
    Parsed(
      if exec.value.Some? && data.value.Some? && pred.value.Some? && dataRoutes.value.Some? && predRoutes.value.Some? &&
         lsu.value.Some?
      then Some(Assemble(exec.value.value, data.value.value, pred.value.value, dataRoutes.value.value,
                         predRoutes.value.value, Low(predRoutes.rest, t.constWidth), lsu.value.value))
      else None,
      lsu.rest)
  }

  // The control with every address cut to the width of its field.
  function Cut(ctrl: TileControl, t: ControlTarget): TileControl {
    Assemble(CutExec(ExecOf(ctrl), t), CutRf(DataRfOf(ctrl), t.dataWidth), CutRf(PredRfOf(ctrl), t.predWidth),
             ctrl.dataRoutes, ctrl.predRoutes, Low(ctrl.constAddr, t.constWidth), LsuOf(ctrl))
  }

  lemma WordBack(ctrl: TileControl, t: ControlTarget)
    ensures ControlOf(WordOf(ctrl, t), t) == Parsed(Some(Cut(ctrl, t)), 0)
  {
    hide Put, Low, High, PutExec, TakeExec, PutRf, TakeRf, PutRoutes, TakeRoutes, PutLsu, TakeLsu, CutExec, CutRf, ExecOf,
         DataRfOf, PredRfOf, LsuOf, Assemble;
    var x5 := PutLsu(LsuOf(ctrl), 0);
    var x4 := Put(ctrl.constAddr, t.constWidth, x5);
    var x3 := PutRoutes(ctrl.predRoutes, PredRouteNaming(), x4);
    var x2 := PutRoutes(ctrl.dataRoutes, DataRouteNaming(), x3);
    var x1 := PutRf(PredRfOf(ctrl), t.predWidth, PredNaming(), x2);
    var x0 := PutRf(DataRfOf(ctrl), t.dataWidth, DataNaming(), x1);
    ExecBack(ExecOf(ctrl), t, x0);
    RfBack(DataRfOf(ctrl), t.dataWidth, DataNaming(), x1);
    RfBack(PredRfOf(ctrl), t.predWidth, PredNaming(), x2);
    RoutesBack(ctrl.dataRoutes, DataRouteNaming(), x3);
    RoutesBack(ctrl.predRoutes, PredRouteNaming(), x4);
    PutLow(ctrl.constAddr, t.constWidth, x5);
    LsuBack(LsuOf(ctrl), 0);
  }

  lemma WordAgain(word: nat, t: ControlTarget)
    requires ControlOf(word, t).value.Some? && ControlOf(word, t).rest == 0
    ensures WordOf(ControlOf(word, t).value.value, t) == word
  {
    hide Put, Low, High, PutExec, TakeExec, PutRf, TakeRf, PutRoutes, TakeRoutes, PutLsu, TakeLsu;
    var exec := TakeExec(word, t);
    var data := TakeRf(exec.rest, t.dataWidth, DataNaming());
    var pred := TakeRf(data.rest, t.predWidth, PredNaming());
    var dataRoutes := TakeRoutes(pred.rest, DataRouteNaming());
    var predRoutes := TakeRoutes(dataRoutes.rest, PredRouteNaming());
    var above := High(predRoutes.rest, t.constWidth);
    ExecAgain(word, t);
    RfAgain(exec.rest, t.dataWidth, DataNaming());
    RfAgain(data.rest, t.predWidth, PredNaming());
    RoutesAgain(pred.rest, DataRouteNaming());
    RoutesAgain(dataRoutes.rest, PredRouteNaming());
    LowHigh(predRoutes.rest, t.constWidth);
    LsuAgain(above);
  }
}
