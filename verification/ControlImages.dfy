// Control images: control words in 32-bit chunks, written and read field by field at running positions.

module ControlImages {
  import opened Wrappers
  import opened Mesh
  import opened Tile
  import opened BitFields
  import opened ControlNames
  import opened ControlCodec

  // ----- Chunks -----

  function JoinChunks(chunks: seq<nat>): nat {
    if chunks == [] then 0 else Put(chunks[0], 32, JoinChunks(chunks[1..]))
  }

  function SplitWord(word: nat, count: nat): (chunks: seq<nat>)
    ensures |chunks| == count
    decreases count
  {
    if count == 0 then [] else [Low(word, 32)] + SplitWord(High(word, 32), count - 1)
  }

  predicate ChunksFit(chunks: seq<nat>) {
    forall i :: 0 <= i < |chunks| ==> chunks[i] < WORD_VALUES
  }

  lemma ChunkPower()
    ensures PowerOfTwo(32) == WORD_VALUES
  {
    Powers();
    PowerSum(4, 4);
    PowerSum(8, 8);
    PowerSum(16, 16);
  }

  lemma {:induction false} SplitFits(word: nat, count: nat)
    ensures ChunksFit(SplitWord(word, count))
    decreases count
  {
    hide Low, High;
    if count > 0 {
      ChunkPower();
      LowHigh(word, 32);
      SplitFits(High(word, 32), count - 1);
    }
  }

  lemma {:induction false} SplitJoin(chunks: seq<nat>)
    requires ChunksFit(chunks)
    ensures SplitWord(JoinChunks(chunks), |chunks|) == chunks
  {
    hide Put, Low, High;
    if chunks != [] {
      ChunkPower();
      PutLow(chunks[0], 32, JoinChunks(chunks[1..]));
      Fitting(chunks[0], 32);
      SplitJoin(chunks[1..]);
    }
  }

  lemma {:induction false} JoinSplit(word: nat, count: nat)
    requires High(word, 32 * count) == 0
    ensures JoinChunks(SplitWord(word, count)) == word
    decreases count
  {
    hide Put, Low, High;
    if count == 0 {
      AllHigh(word);
    } else {
      ExtractHigh(word, 32, 32 * (count - 1));
      JoinSplit(High(word, 32), count - 1);
      LowHigh(word, 32);
    }
  }

  lemma AllHigh(word: nat)
    ensures High(word, 0) == word
  {
  }

  // ----- Images -----

  /** The image of a control: its word in chunks. */
  function Encoded(ctrl: TileControl, t: ControlTarget): seq<nat> {
    SplitWord(WordOf(ctrl, t), t.chunks)
  }

  /** The control of an image; there is none for a wrong number of chunks, padding that is set, or a number naming nothing. */
  function Decoded(chunks: seq<nat>, t: ControlTarget): Option<TileControl> {
    if |chunks| != t.chunks || !ChunksFit(chunks) then None
    else
      var parsed := ControlOf(JoinChunks(chunks), t);
      if parsed.rest != 0 then None else parsed.value
  }

  // ----- Where the fields end -----

  lemma HighSum(word: nat, a: nat, b: nat)
    ensures High(High(word, a), b) == High(word, a + b)
  {
    ExtractHigh(word, a, b);
  }

  lemma ExecRest(word: nat, t: ControlTarget)
    ensures TakeExec(word, t).rest == High(word, t.ExecWidth())
  {
    hide Low, High, OpByValue, DataSourceByValue, PredSourceByValue;
    var d, p := t.dataWidth, t.predWidth;
    HighSum(word, 6, 4);
    HighSum(word, 10, 4);
    HighSum(word, 14, 4);
    HighSum(word, 18, 4);
    HighSum(word, 22, d);
    HighSum(word, 22 + d, d);
    HighSum(word, 22 + d + d, p);
    HighSum(word, 22 + d + d + p, p);
  }

  lemma RfRest<S(!new)>(word: nat, width: nat, naming: Naming<S>)
    requires naming.width == 4
    ensures TakeRf(word, width, naming).rest == High(word, RfWidth(width))
  {
    hide Low, High;
    HighSum(word, 1, width);
    HighSum(word, 1 + width, 1);
    HighSum(word, 2 + width, width);
    HighSum(word, 2 + width + width, 4);
  }

  lemma RouteRest<S(!new)>(word: nat, naming: Naming<RouteSource<S>>)
    requires naming.width == 4
    ensures TakeRoute(word, naming).rest == High(word, 5)
  {
    hide Low, High;
    HighSum(word, 1, 4);
  }

  lemma RoutesRest<S(!new)>(word: nat, naming: Naming<RouteSource<S>>)
    requires naming.width == 4
    ensures TakeRoutes(word, naming).rest == High(word, 20)
  {
    hide High, TakeRoute;
    RouteRest(word, naming);
    RouteRest(High(word, 5), naming);
    HighSum(word, 5, 5);
    RouteRest(High(word, 10), naming);
    HighSum(word, 10, 5);
    RouteRest(High(word, 15), naming);
    HighSum(word, 15, 5);
  }

  lemma LsuRest(word: nat)
    ensures TakeLsu(word).rest == High(word, 16)
  {
    hide Low, High, LsuOpByValue, DataSourceByValue, PredSourceByValue;
    HighSum(word, 2, 4);
    HighSum(word, 6, 4);
    HighSum(word, 10, 1);
    HighSum(word, 11, 1);
    HighSum(word, 12, 4);
  }

  // What is left above all fields is the padding.
  lemma ControlRest(word: nat, t: ControlTarget)
    requires t.Valid()
    ensures ControlOf(word, t).rest == High(word, t.rawWidth)
  {
    hide High, Low, TakeExec, TakeRf, TakeRoutes, TakeLsu;
    var d, p := RfWidth(t.dataWidth), RfWidth(t.predWidth);
    var e := t.ExecWidth();
    ExecRest(word, t);
    RfRest(High(word, e), t.dataWidth, DataNaming());
    HighSum(word, e, d);
    RfRest(High(word, e + d), t.predWidth, PredNaming());
    HighSum(word, e + d, p);
    RoutesRest(High(word, e + d + p), DataRouteNaming());
    HighSum(word, e + d + p, 20);
    RoutesRest(High(word, e + d + p + 20), PredRouteNaming());
    HighSum(word, e + d + p + 20, 20);
    HighSum(word, e + d + p + 40, t.constWidth);
    LsuRest(High(word, e + d + p + 40 + t.constWidth));
    HighSum(word, e + d + p + 40 + t.constWidth, 16);
  }

  lemma NothingAbove(word: nat, low: nat, high: nat)
    requires low <= high && High(word, low) == 0
    ensures High(word, high) == 0
  {
    HighSum(word, low, high - low);
    Zero(high - low);
  }

  lemma Zero(n: nat)
    ensures High(0, n) == 0
  {
    hide PowerOfTwo;
    Divides(0, 0, PowerOfTwo(n));
  }

  // ----- Round trips -----

  /** Every address fits the memory field it is written into. */
  predicate AddressesFit(ctrl: TileControl, t: ControlTarget) {
    && ctrl.dataReadA < PowerOfTwo(t.dataWidth) && ctrl.dataReadB < PowerOfTwo(t.dataWidth)
    && ctrl.dataW0Addr < PowerOfTwo(t.dataWidth) && ctrl.dataW1Addr < PowerOfTwo(t.dataWidth)
    && ctrl.predReadA < PowerOfTwo(t.predWidth) && ctrl.predReadB < PowerOfTwo(t.predWidth)
    && ctrl.predW0Addr < PowerOfTwo(t.predWidth) && ctrl.predW1Addr < PowerOfTwo(t.predWidth)
    && ctrl.constAddr < PowerOfTwo(t.constWidth)
  }

  lemma CutChangesNothing(ctrl: TileControl, t: ControlTarget)
    ensures Cut(ctrl, t) == ctrl <==> AddressesFit(ctrl, t)
  {
    hide Low, PowerOfTwo;
    Fitting(ctrl.dataReadA, t.dataWidth);
    Fitting(ctrl.dataReadB, t.dataWidth);
    Fitting(ctrl.dataW0Addr, t.dataWidth);
    Fitting(ctrl.dataW1Addr, t.dataWidth);
    Fitting(ctrl.predReadA, t.predWidth);
    Fitting(ctrl.predReadB, t.predWidth);
    Fitting(ctrl.predW0Addr, t.predWidth);
    Fitting(ctrl.predW1Addr, t.predWidth);
    Fitting(ctrl.constAddr, t.constWidth);
  }

  /** Decoding an encoded control gives it back exactly where its addresses fit, and otherwise cuts them. */
  lemma DecodeEncoded(ctrl: TileControl, t: ControlTarget)
    requires t.Valid()
    ensures Decoded(Encoded(ctrl, t), t) == Some(Cut(ctrl, t))
    ensures Decoded(Encoded(ctrl, t), t) == Some(ctrl) <==> AddressesFit(ctrl, t)
  {
    hide WordOf, ControlOf, Cut, AddressesFit, High, SplitWord, JoinChunks, ChunksFit;
    var word := WordOf(ctrl, t);
    WordBack(ctrl, t);
    ControlRest(word, t);
    NothingAbove(word, t.rawWidth, 32 * t.chunks);
    SplitFits(word, t.chunks);
    JoinSplit(word, t.chunks);
    CutChangesNothing(ctrl, t);
  }

  /** Encoding what an image decodes to gives the image back. */
  lemma EncodeDecoded(chunks: seq<nat>, t: ControlTarget)
    requires t.Valid() && Decoded(chunks, t).Some?
    ensures Encoded(Decoded(chunks, t).value, t) == chunks
  {
    hide WordOf, ControlOf, SplitWord, JoinChunks, ChunksFit;
    WordAgain(JoinChunks(chunks), t);
    SplitJoin(chunks);
  }

  // ----- Reading at a running position -----

  method ReadName<T(!new)>(naming: Naming<T>, word: nat, lsb: nat) returns (value: Option<T>, lsb': nat)
    ensures lsb' == lsb + naming.width && TakeName(naming, High(word, lsb)) == Parsed(value, High(word, lsb'))
  {
    ExtractHigh(word, lsb, naming.width);
    value, lsb' := naming.byValue(Extract(word, lsb, naming.width)), lsb + naming.width;
  }

  method ReadBit(word: nat, lsb: nat) returns (value: bool, lsb': nat)
    ensures lsb' == lsb + 1 && TakeBit(High(word, lsb)) == ParsedBit(value, High(word, lsb'))
  {
    ExtractHigh(word, lsb, 1);
    value, lsb' := Extract(word, lsb, 1) != 0, lsb + 1;
  }

  method ReadAddress(word: nat, lsb: nat, width: nat) returns (value: nat, lsb': nat)
    ensures lsb' == lsb + width && value == Low(High(word, lsb), width) && High(word, lsb') == High(High(word, lsb), width)
  {
    ExtractHigh(word, lsb, width);
    value, lsb' := Extract(word, lsb, width), lsb + width;
  }

  method ReadExec(word: nat, lsb: nat, t: ControlTarget) returns (f: Option<ExecFields>)
    ensures TakeExec(High(word, lsb), t).value == f
  {
    hide Low, High, TakeName, OpNaming, DataNaming, PredNaming;
    var op, srcA, srcB, srcP0, srcP1, at;
    op, at := ReadName(OpNaming(), word, lsb);
    srcA, at := ReadName(DataNaming(), word, at);
    srcB, at := ReadName(DataNaming(), word, at);
    srcP0, at := ReadName(PredNaming(), word, at);
    srcP1, at := ReadName(PredNaming(), word, at);
    var dataA, dataB, predA, predB;
    dataA, at := ReadAddress(word, at, t.dataWidth);
    dataB, at := ReadAddress(word, at, t.dataWidth);
    predA, at := ReadAddress(word, at, t.predWidth);
    predB, at := ReadAddress(word, at, t.predWidth);
    if op.None? || srcA.None? || srcB.None? || srcP0.None? || srcP1.None? {
      return None;
    }
    f := Some(ExecFields(op.value, srcA.value, srcB.value, srcP0.value, srcP1.value, dataA, dataB, predA, predB));
  }

  method ReadRf<S(!new)>(word: nat, lsb: nat, width: nat, naming: Naming<S>) returns (f: Option<RfFields<S>>)
    ensures TakeRf(High(word, lsb), width, naming).value == f
  {
    hide Low, High, TakeName, PutBit, TakeBit;
    var w0, w0Addr, w1, w1Addr, src, at;
    w0, at := ReadBit(word, lsb);
    w0Addr, at := ReadAddress(word, at, width);
    w1, at := ReadBit(word, at);
    w1Addr, at := ReadAddress(word, at, width);
    src, at := ReadName(naming, word, at);
    if src.None? {
      return None;
    }
    f := Some(RfFields(w0, w0Addr, w1, w1Addr, src.value));
  }

  method ReadRoute<S(!new)>(word: nat, lsb: nat, naming: Naming<RouteSource<S>>) returns (route: Option<RouteControl<S>>)
    ensures TakeRoute(High(word, lsb), naming).value == route
  {
    hide Low, High, TakeName, PutBit, TakeBit;
    var we, src, at;
    we, at := ReadBit(word, lsb);
    src, at := ReadName(naming, word, at);
    if src.None? {
      return None;
    }
    route := Some(RouteControl(we, src.value));
  }

  method ReadRoutes<S(!new)>(word: nat, lsb: nat, naming: Naming<RouteSource<S>>) returns (routes: Option<Sides<RouteControl<S>>>)
    requires naming.width == 4
    ensures TakeRoutes(High(word, lsb), naming).value == routes
  {
    hide High, TakeRoute;
    RouteRest(High(word, lsb), naming);
    HighSum(word, lsb, 5);
    RouteRest(High(word, lsb + 5), naming);
    HighSum(word, lsb + 5, 5);
    RouteRest(High(word, lsb + 10), naming);
    HighSum(word, lsb + 10, 5);
    var north := ReadRoute(word, lsb, naming);
    var south := ReadRoute(word, lsb + 5, naming);
    var east := ReadRoute(word, lsb + 10, naming);
    var west := ReadRoute(word, lsb + 15, naming);
    if north.None? || south.None? || east.None? || west.None? {
      return None;
    }
    routes := Some(Sides(north.value, south.value, east.value, west.value));
  }

  method ReadLsu(word: nat, lsb: nat) returns (f: Option<LsuFields>)
    ensures TakeLsu(High(word, lsb)).value == f
  {
    hide Low, High, TakeName, LsuNaming, DataNaming, PutBit, TakeBit, PredNaming;
    var op, address, store, enable, invert, commit, at;
    op, at := ReadName(LsuNaming(), word, lsb);
    address, at := ReadName(DataNaming(), word, at);
    store, at := ReadName(DataNaming(), word, at);
    enable, at := ReadBit(word, at);
    invert, at := ReadBit(word, at);
    commit, at := ReadName(PredNaming(), word, at);
    if op.None? || address.None? || store.None? || commit.None? {
      return None;
    }
    f := Some(LsuFields(op.value, address.value, store.value, enable, invert, commit.value));
  }

  // ----- Writing at a running position -----

  method WriteName<T(!new)>(naming: Naming<T>, x: T, word: nat, lsb: nat, ghost tail: nat) returns (word': nat, lsb': nat)
    requires word < PowerOfTwo(lsb)
    ensures lsb' == lsb + naming.width && word' < PowerOfTwo(lsb')
    ensures word' + PowerOfTwo(lsb') * tail == word + PowerOfTwo(lsb) * PutName(naming, x, tail)
  {
    hide Put, Insert, PowerOfTwo;
    InsertStep(word, naming.value(x), lsb, naming.width, tail);
    word', lsb' := Insert(word, naming.value(x), lsb, naming.width), lsb + naming.width;
  }

  method WriteBit(b: bool, word: nat, lsb: nat, ghost tail: nat) returns (word': nat, lsb': nat)
    requires word < PowerOfTwo(lsb)
    ensures lsb' == lsb + 1 && word' < PowerOfTwo(lsb')
    ensures word' + PowerOfTwo(lsb') * tail == word + PowerOfTwo(lsb) * PutBit(b, tail)
  {
    hide Put, Insert, PowerOfTwo;
    InsertStep(word, Bit(b), lsb, 1, tail);
    word', lsb' := Insert(word, Bit(b), lsb, 1), lsb + 1;
  }

  method WriteAddress(value: nat, width: nat, word: nat, lsb: nat, ghost tail: nat) returns (word': nat, lsb': nat)
    requires word < PowerOfTwo(lsb)
    ensures lsb' == lsb + width && word' < PowerOfTwo(lsb')
    ensures word' + PowerOfTwo(lsb') * tail == word + PowerOfTwo(lsb) * Put(value, width, tail)
  {
    hide Put, Insert, PowerOfTwo;
    InsertStep(word, value, lsb, width, tail);
    word', lsb' := Insert(word, value, lsb, width), lsb + width;
  }

  method WriteExec(f: ExecFields, t: ControlTarget, word: nat, lsb: nat, ghost tail: nat) returns (word': nat)
    requires word < PowerOfTwo(lsb)
    ensures word' < PowerOfTwo(lsb + t.ExecWidth())
    ensures word' + PowerOfTwo(lsb + t.ExecWidth()) * tail == word + PowerOfTwo(lsb) * PutExec(f, t, tail)
  {
    hide Put, PutName, PowerOfTwo, OpValue, DataSourceValue, PredSourceValue, OpByValue, DataSourceByValue, PredSourceByValue;
    ghost var x3 := Put(f.predReadB, t.predWidth, tail);
    ghost var x2 := Put(f.predReadA, t.predWidth, x3);
    ghost var x1 := Put(f.dataReadB, t.dataWidth, x2);
    ghost var x0 := Put(f.dataReadA, t.dataWidth, x1);
    ghost var y4 := PutName(PredNaming(), f.srcP1, x0);
    ghost var y3 := PutName(PredNaming(), f.srcP0, y4);
    ghost var y2 := PutName(DataNaming(), f.srcB, y3);
    ghost var y1 := PutName(DataNaming(), f.srcA, y2);
    var at;
    word', at := WriteName(OpNaming(), f.op, word, lsb, y1);
    word', at := WriteName(DataNaming(), f.srcA, word', at, y2);
    word', at := WriteName(DataNaming(), f.srcB, word', at, y3);
    word', at := WriteName(PredNaming(), f.srcP0, word', at, y4);
    word', at := WriteName(PredNaming(), f.srcP1, word', at, x0);
    word', at := WriteAddress(f.dataReadA, t.dataWidth, word', at, x1);
    word', at := WriteAddress(f.dataReadB, t.dataWidth, word', at, x2);
    word', at := WriteAddress(f.predReadA, t.predWidth, word', at, x3);
    word', at := WriteAddress(f.predReadB, t.predWidth, word', at, tail);
  }

  method WriteRf<S(!new)>(f: RfFields<S>, width: nat, naming: Naming<S>, word: nat, lsb: nat, ghost tail: nat)
    returns (word': nat)
    requires word < PowerOfTwo(lsb) && naming.width == 4
    ensures word' < PowerOfTwo(lsb + RfWidth(width))
    ensures word' + PowerOfTwo(lsb + RfWidth(width)) * tail == word + PowerOfTwo(lsb) * PutRf(f, width, naming, tail)
  {
    hide Put, PutName, PowerOfTwo;
    ghost var x3 := PutName(naming, f.w1Src, tail);
    ghost var x2 := Put(f.w1Addr, width, x3);
    ghost var x1 := PutBit(f.w1, x2);
    ghost var x0 := Put(f.w0Addr, width, x1);
    var at;
    word', at := WriteBit(f.w0, word, lsb, x0);
    word', at := WriteAddress(f.w0Addr, width, word', at, x1);
    word', at := WriteBit(f.w1, word', at, x2);
    word', at := WriteAddress(f.w1Addr, width, word', at, x3);
    word', at := WriteName(naming, f.w1Src, word', at, tail);
  }

  method WriteRoute<S(!new)>(route: RouteControl<S>, naming: Naming<RouteSource<S>>, word: nat, lsb: nat, ghost tail: nat)
    returns (word': nat)
    requires word < PowerOfTwo(lsb) && naming.width == 4
    ensures word' < PowerOfTwo(lsb + 5)
    ensures word' + PowerOfTwo(lsb + 5) * tail == word + PowerOfTwo(lsb) * PutRoute(route, naming, tail)
  {
    hide PutName, PowerOfTwo;
    var at;
    word', at := WriteBit(route.we, word, lsb, PutName(naming, route.src, tail));
    word', at := WriteName(naming, route.src, word', at, tail);
  }

  method WriteRoutes<S(!new)>(routes: Sides<RouteControl<S>>, naming: Naming<RouteSource<S>>, word: nat, lsb: nat,
                              ghost tail: nat)
    returns (word': nat)
    requires word < PowerOfTwo(lsb) && naming.width == 4
    ensures word' < PowerOfTwo(lsb + 20)
    ensures word' + PowerOfTwo(lsb + 20) * tail == word + PowerOfTwo(lsb) * PutRoutes(routes, naming, tail)
  {
    hide PutRoute, PowerOfTwo;
    ghost var x2 := PutRoute(routes.west, naming, tail);
    ghost var x1 := PutRoute(routes.east, naming, x2);
    ghost var x0 := PutRoute(routes.south, naming, x1);
    word' := WriteRoute(routes.north, naming, word, lsb, x0);
    word' := WriteRoute(routes.south, naming, word', lsb + 5, x1);
    word' := WriteRoute(routes.east, naming, word', lsb + 10, x2);
    word' := WriteRoute(routes.west, naming, word', lsb + 15, tail);
  }

  method WriteLsu(f: LsuFields, word: nat, lsb: nat) returns (word': nat)
    requires word < PowerOfTwo(lsb)
    ensures word' == word + PowerOfTwo(lsb) * PutLsu(f, 0)
  {
    hide Put, PutName, PowerOfTwo, LsuNaming, DataNaming, PutBit, TakeBit, PredNaming;
    ghost var x4 := PutName(PredNaming(), f.commitSrc, 0);
    ghost var x3 := PutBit(f.commitInvert, x4);
    ghost var x2 := PutBit(f.commitEnable, x3);
    ghost var x1 := PutName(DataNaming(), f.storeSrc, x2);
    ghost var x0 := PutName(DataNaming(), f.addrSrc, x1);
    var at;
    word', at := WriteName(LsuNaming(), f.op, word, lsb, x0);
    word', at := WriteName(DataNaming(), f.addrSrc, word', at, x1);
    word', at := WriteName(DataNaming(), f.storeSrc, word', at, x2);
    word', at := WriteBit(f.commitEnable, word', at, x3);
    word', at := WriteBit(f.commitInvert, word', at, x4);
    word', at := WriteName(PredNaming(), f.commitSrc, word', at, 0);
  }

  // ----- The codec -----

  method WordOfControl(ctrl: TileControl, t: ControlTarget) returns (word: nat)
    requires t.Valid()
    ensures word == WordOf(ctrl, t)
  {
    hide Put, PutExec, PutRf, PutRoutes, PutLsu, PowerOfTwo, ExecOf, DataRfOf, PredRfOf, LsuOf;
    ghost var x5 := PutLsu(LsuOf(ctrl), 0);
    ghost var x4 := Put(ctrl.constAddr, t.constWidth, x5);
    ghost var x3 := PutRoutes(ctrl.predRoutes, PredRouteNaming(), x4);
    ghost var x2 := PutRoutes(ctrl.dataRoutes, DataRouteNaming(), x3);
    ghost var x1 := PutRf(PredRfOf(ctrl), t.predWidth, PredNaming(), x2);
    ghost var x0 := PutRf(DataRfOf(ctrl), t.dataWidth, DataNaming(), x1);
    var dataRfLsb := t.ExecWidth();
    var predRfLsb := dataRfLsb + RfWidth(t.dataWidth);
    var dataRouteLsb := predRfLsb + RfWidth(t.predWidth);
    var predRouteLsb := dataRouteLsb + 20;
    var constLsb := predRouteLsb + 20;
    Empty();
    word := WriteExec(ExecOf(ctrl), t, 0, 0, x0);
    word := WriteRf(DataRfOf(ctrl), t.dataWidth, DataNaming(), word, dataRfLsb, x1);
    word := WriteRf(PredRfOf(ctrl), t.predWidth, PredNaming(), word, predRfLsb, x2);
    word := WriteRoutes(ctrl.dataRoutes, DataRouteNaming(), word, dataRouteLsb, x3);
    word := WriteRoutes(ctrl.predRoutes, PredRouteNaming(), word, predRouteLsb, x4);
    var lsuLsb;
    word, lsuLsb := WriteAddress(ctrl.constAddr, t.constWidth, word, constLsb, x5);
    word := WriteLsu(LsuOf(ctrl), word, lsuLsb);
  }

  lemma Empty()
    ensures PowerOfTwo(0) == 1
  {
  }

  /** Writes a control as 32-bit chunks, the lowest first. */
  method EncodeControlChunks(ctrl: TileControl, t: ControlTarget) returns (chunks: seq<nat>)
    requires t.Valid()
    ensures chunks == Encoded(ctrl, t)
  {
    hide WordOf, Extract, High, Low;
    var word := WordOfControl(ctrl, t);
    chunks := [];
    AllHigh(word);
    for i := 0 to t.chunks
      invariant chunks + SplitWord(High(word, 32 * i), t.chunks - i) == SplitWord(word, t.chunks)
    {
      ExtractHigh(word, 32 * i, 32);
      assert 32 * i + 32 == 32 * (i + 1);
      chunks := chunks + [Extract(word, 32 * i, 32)];
    }
  }

  // The chunks put together, None where one is no 32-bit value.
  method WordOfChunks(chunks: seq<nat>) returns (word: Option<nat>)
    ensures word == if ChunksFit(chunks) then Some(JoinChunks(chunks)) else None
  {
    hide Put, PowerOfTwo, Insert;
    var joined: nat := 0;
    Empty();
    assert chunks[0..] == chunks;
    for i := 0 to |chunks|
      invariant forall j :: 0 <= j < i ==> chunks[j] < WORD_VALUES
      invariant joined < PowerOfTwo(32 * i)
      invariant joined + PowerOfTwo(32 * i) * JoinChunks(chunks[i..]) == JoinChunks(chunks)
    {
      if chunks[i] >= WORD_VALUES {
        return None;
      }
      assert chunks[i..][1..] == chunks[i + 1..] && 32 * i + 32 == 32 * (i + 1);
      InsertStep(joined, chunks[i], 32 * i, 32, JoinChunks(chunks[i + 1..]));
      joined := Insert(joined, chunks[i], 32 * i, 32);
    }
    word := Some(joined);
  }

  /** Reads a control back from its image. */
  method DecodeControlChunks(chunks: seq<nat>, t: ControlTarget) returns (ctrl: Option<TileControl>)
    requires t.Valid()
    ensures ctrl == Decoded(chunks, t)
  {
    hide JoinChunks, ChunksFit, High, Low, Extract, TakeExec, TakeRf, TakeRoutes, TakeLsu;
    if |chunks| != t.chunks {
      return None;
    }
    var joined := WordOfChunks(chunks);
    if joined.None? {
      return None;
    }
    var word := joined.value;
    PaddingIs(chunks, word, t);
    ControlRest(word, t);
    if Extract(word, t.rawWidth, t.physicalWidth - t.rawWidth) != 0 {
      return None;
    }
    ctrl := ReadControl(word, t);
  }

  method ReadControl(word: nat, t: ControlTarget) returns (ctrl: Option<TileControl>)
    requires t.Valid()
    ensures ctrl == ControlOf(word, t).value
  {
    hide High, Low, Extract, TakeExec, TakeRf, TakeRoutes, TakeLsu;
    var dataRfLsb := t.ExecWidth();
    var predRfLsb := dataRfLsb + RfWidth(t.dataWidth);
    var dataRouteLsb := predRfLsb + RfWidth(t.predWidth);
    var predRouteLsb := dataRouteLsb + 20;
    var constLsb := predRouteLsb + 20;
    GroupsAt(word, t);
    AllHigh(word);
    var exec := ReadExec(word, 0, t);
    var data := ReadRf(word, dataRfLsb, t.dataWidth, DataNaming());
    var pred := ReadRf(word, predRfLsb, t.predWidth, PredNaming());
    var dataRoutes := ReadRoutes(word, dataRouteLsb, DataRouteNaming());
    var predRoutes := ReadRoutes(word, predRouteLsb, PredRouteNaming());
    var constAddr, lsuLsb := ReadAddress(word, constLsb, t.constWidth);
    var lsu := ReadLsu(word, lsuLsb);
    if exec.None? || data.None? || pred.None? || dataRoutes.None? || predRoutes.None? || lsu.None? {
      return None;
    }
    ctrl := Some(Assemble(exec.value, data.value, pred.value, dataRoutes.value, predRoutes.value, constAddr, lsu.value));
  }

  // Each group starts where the one below it ends.
  lemma GroupsAt(word: nat, t: ControlTarget)
    ensures var exec := TakeExec(word, t);
            var data := TakeRf(exec.rest, t.dataWidth, DataNaming());
            var pred := TakeRf(data.rest, t.predWidth, PredNaming());
            var dataRoutes := TakeRoutes(pred.rest, DataRouteNaming());
            var predRoutes := TakeRoutes(dataRoutes.rest, PredRouteNaming());
            var (e, d, p) := (t.ExecWidth(), RfWidth(t.dataWidth), RfWidth(t.predWidth));
      && exec.rest == High(word, e) && data.rest == High(word, e + d) && pred.rest == High(word, e + d + p)
      && dataRoutes.rest == High(word, e + d + p + 20) && predRoutes.rest == High(word, e + d + p + 20 + 20)
  {
    hide High, Low, TakeExec, TakeRf, TakeRoutes;
    var e, d, p := t.ExecWidth(), RfWidth(t.dataWidth), RfWidth(t.predWidth);
    ExecRest(word, t);
    RfRest(High(word, e), t.dataWidth, DataNaming());
    HighSum(word, e, d);
    RfRest(High(word, e + d), t.predWidth, PredNaming());
    HighSum(word, e + d, p);
    RoutesRest(High(word, e + d + p), DataRouteNaming());
    HighSum(word, e + d + p, 20);
    RoutesRest(High(word, e + d + p + 20), PredRouteNaming());
    HighSum(word, e + d + p + 20, 20);
  }

  lemma {:induction false} JoinBounded(chunks: seq<nat>)
    requires ChunksFit(chunks)
    ensures High(JoinChunks(chunks), 32 * |chunks|) == 0
  {
    hide Put, High, Low;
    if chunks == [] {
      AllHigh(0);
    } else {
      JoinBounded(chunks[1..]);
      PutLow(chunks[0], 32, JoinChunks(chunks[1..]));
      HighSum(JoinChunks(chunks), 32, 32 * |chunks[1..]|);
    }
  }

  // The padding of an image is zero exactly where nothing lies above its fields.
  lemma PaddingIs(chunks: seq<nat>, word: nat, t: ControlTarget)
    requires t.Valid() && |chunks| == t.chunks && ChunksFit(chunks) && word == JoinChunks(chunks)
    ensures Extract(word, t.rawWidth, t.physicalWidth - t.rawWidth) == High(word, t.rawWidth)
  {
    hide JoinChunks, ChunksFit, PowerOfTwo;
    var padding := t.physicalWidth - t.rawWidth;
    JoinBounded(chunks);
    ExtractHigh(word, t.rawWidth, padding);
    LowHigh(High(word, t.rawWidth), padding);
    assert High(High(word, t.rawWidth), padding) == 0;
  }
}
