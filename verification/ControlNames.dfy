// Names and numbers: what the fields of a control word stand for.

module ControlNames {
  import opened Wrappers
  import opened Mesh
  import opened Tile

  function OpValue(op: FuOp): nat {
    match op
    case NOP => 0
    case PASS => 1
    case ADD => 2
    case SUB => 3
    case MUL => 4
    case AND => 5
    case OR => 6
    case XOR => 7
    case SHL => 8
    case LSHR => 9
    case SELECT => 10
    case CMP_EQ => 16
    case CMP_NE => 17
    case CMP_ULT => 18
    case CMP_ULE => 19
    case PPASS => 32
    case PNOT => 33
    case PAND => 34
    case POR => 35
  }

  function OpByValue(value: nat): Option<FuOp> {
    match value
    case 0 => Some(NOP)
    case 1 => Some(PASS)
    case 2 => Some(ADD)
    case 3 => Some(SUB)
    case 4 => Some(MUL)
    case 5 => Some(AND)
    case 6 => Some(OR)
    case 7 => Some(XOR)
    case 8 => Some(SHL)
    case 9 => Some(LSHR)
    case 10 => Some(SELECT)
    case 16 => Some(CMP_EQ)
    case 17 => Some(CMP_NE)
    case 18 => Some(CMP_ULT)
    case 19 => Some(CMP_ULE)
    case 32 => Some(PPASS)
    case 33 => Some(PNOT)
    case 34 => Some(PAND)
    case 35 => Some(POR)
    case _ => None
  }

  function DataSourceValue(src: DataSource): nat {
    match src
    case DataRegA => 0
    case DataRegB => 1
    case DataIn(North) => 2
    case DataIn(South) => 3
    case DataIn(East) => 4
    case DataIn(West) => 5
    case ConstData => 6
    case LoadData => 7
    case ZeroData => 8
  }

  function DataSourceByValue(value: nat): Option<DataSource> {
    match value
    case 0 => Some(DataRegA)
    case 1 => Some(DataRegB)
    case 2 => Some(DataIn(North))
    case 3 => Some(DataIn(South))
    case 4 => Some(DataIn(East))
    case 5 => Some(DataIn(West))
    case 6 => Some(ConstData)
    case 7 => Some(LoadData)
    case 8 => Some(ZeroData)
    case _ => None
  }

  function PredSourceValue(src: PredSource): nat {
    match src
    case PredRegA => 0
    case PredRegB => 1
    case PredIn(North) => 2
    case PredIn(South) => 3
    case PredIn(East) => 4
    case PredIn(West) => 5
    case ConstTrue => 6
    case ConstFalse => 7
  }

  function PredSourceByValue(value: nat): Option<PredSource> {
    match value
    case 0 => Some(PredRegA)
    case 1 => Some(PredRegB)
    case 2 => Some(PredIn(North))
    case 3 => Some(PredIn(South))
    case 4 => Some(PredIn(East))
    case 5 => Some(PredIn(West))
    case 6 => Some(ConstTrue)
    case 7 => Some(ConstFalse)
    case _ => None
  }

  // Routes number their sources differently from operands.
  function DataRouteValue(src: RouteSource<DataSource>): nat {
    match src
    case NoRoute => 0
    case From(DataIn(North)) => 1
    case From(DataIn(South)) => 2
    case From(DataIn(East)) => 3
    case From(DataIn(West)) => 4
    case FuResult => 5
    case From(DataRegA) => 6
    case From(DataRegB) => 7
    case From(ConstData) => 8
    case From(LoadData) => 9
    case From(ZeroData) => 10
  }

  function DataRouteByValue(value: nat): Option<RouteSource<DataSource>> {
    match value
    case 0 => Some(NoRoute)
    case 1 => Some(From(DataIn(North)))
    case 2 => Some(From(DataIn(South)))
    case 3 => Some(From(DataIn(East)))
    case 4 => Some(From(DataIn(West)))
    case 5 => Some(FuResult)
    case 6 => Some(From(DataRegA))
    case 7 => Some(From(DataRegB))
    case 8 => Some(From(ConstData))
    case 9 => Some(From(LoadData))
    case 10 => Some(From(ZeroData))
    case _ => None
  }

  function PredRouteValue(src: RouteSource<PredSource>): nat {
    match src
    case NoRoute => 0
    case From(PredIn(North)) => 1
    case From(PredIn(South)) => 2
    case From(PredIn(East)) => 3
    case From(PredIn(West)) => 4
    case FuResult => 5
    case From(PredRegA) => 6
    case From(PredRegB) => 7
    case From(ConstTrue) => 8
    case From(ConstFalse) => 9
  }

  function PredRouteByValue(value: nat): Option<RouteSource<PredSource>> {
    match value
    case 0 => Some(NoRoute)
    case 1 => Some(From(PredIn(North)))
    case 2 => Some(From(PredIn(South)))
    case 3 => Some(From(PredIn(East)))
    case 4 => Some(From(PredIn(West)))
    case 5 => Some(FuResult)
    case 6 => Some(From(PredRegA))
    case 7 => Some(From(PredRegB))
    case 8 => Some(From(ConstTrue))
    case 9 => Some(From(ConstFalse))
    case _ => None
  }

  function LsuOpValue(op: LsuOp): nat {
    match op
    case LsuNone => 0
    case LsuLoad => 1
    case LsuStore => 2
    case LsuReserved => 3
  }

  function LsuOpByValue(value: nat): Option<LsuOp> {
    match value
    case 0 => Some(LsuNone)
    case 1 => Some(LsuLoad)
    case 2 => Some(LsuStore)
    case 3 => Some(LsuReserved)
    case _ => None
  }

  function Bit(b: bool): nat {
    if b then 1 else 0
  }

  /** A way of writing values of a type as numbers of so many bits, and reading back those that are names. */
  datatype Naming<!T(!new)> = Naming(value: T -> nat, byValue: nat -> Option<T>, width: nat) {
    ghost predicate Faithful() {
      && (forall x :: value(x) < PowerOfTwo(width) && byValue(value(x)) == Some(x))
      && (forall v: nat :: v < PowerOfTwo(width) && byValue(v).Some? ==> value(byValue(v).value) == v)
    }
  }

  lemma OpNamed(x: FuOp)
    ensures OpValue(x) < 64 && OpByValue(OpValue(x)) == Some(x)
  {
  }

  lemma OpNumbered(v: nat)
    requires v < 64
    ensures OpByValue(v).Some? ==> OpValue(OpByValue(v).value) == v
  {
  }

  function OpNaming(): (naming: Naming<FuOp>)
    ensures naming.Faithful()
  {
    OpFaithful();
    Naming(OpValue, OpByValue, 6)
  }

  lemma OpFaithful()
    ensures Naming(OpValue, OpByValue, 6).Faithful()
  {
    Powers();
    hide OpValue, OpByValue;
    forall x: FuOp
      ensures OpValue(x) < PowerOfTwo(6) && OpByValue(OpValue(x)) == Some(x)
    {
      OpNamed(x);
    }
    forall v: nat | v < PowerOfTwo(6) && OpByValue(v).Some?
      ensures OpValue(OpByValue(v).value) == v
    {
      OpNumbered(v);
    }
  }

  lemma DataNamed(x: DataSource)
    ensures DataSourceValue(x) < 16 && DataSourceByValue(DataSourceValue(x)) == Some(x)
  {
  }

  lemma DataNumbered(v: nat)
    requires v < 16
    ensures DataSourceByValue(v).Some? ==> DataSourceValue(DataSourceByValue(v).value) == v
  {
  }

  function DataNaming(): (naming: Naming<DataSource>)
    ensures naming.Faithful()
  {
    DataFaithful();
    Naming(DataSourceValue, DataSourceByValue, 4)
  }

  lemma DataFaithful()
    ensures Naming(DataSourceValue, DataSourceByValue, 4).Faithful()
  {
    Powers();
    hide DataSourceValue, DataSourceByValue;
    forall x: DataSource
      ensures DataSourceValue(x) < PowerOfTwo(4) && DataSourceByValue(DataSourceValue(x)) == Some(x)
    {
      DataNamed(x);
    }
    forall v: nat | v < PowerOfTwo(4) && DataSourceByValue(v).Some?
      ensures DataSourceValue(DataSourceByValue(v).value) == v
    {
      DataNumbered(v);
    }
  }

  lemma PredNamed(x: PredSource)
    ensures PredSourceValue(x) < 16 && PredSourceByValue(PredSourceValue(x)) == Some(x)
  {
  }

  lemma PredNumbered(v: nat)
    requires v < 16
    ensures PredSourceByValue(v).Some? ==> PredSourceValue(PredSourceByValue(v).value) == v
  {
  }

  function PredNaming(): (naming: Naming<PredSource>)
    ensures naming.Faithful()
  {
    PredFaithful();
    Naming(PredSourceValue, PredSourceByValue, 4)
  }

  lemma PredFaithful()
    ensures Naming(PredSourceValue, PredSourceByValue, 4).Faithful()
  {
    Powers();
    hide PredSourceValue, PredSourceByValue;
    forall x: PredSource
      ensures PredSourceValue(x) < PowerOfTwo(4) && PredSourceByValue(PredSourceValue(x)) == Some(x)
    {
      PredNamed(x);
    }
    forall v: nat | v < PowerOfTwo(4) && PredSourceByValue(v).Some?
      ensures PredSourceValue(PredSourceByValue(v).value) == v
    {
      PredNumbered(v);
    }
  }

  lemma DataRouteNamed(x: RouteSource<DataSource>)
    ensures DataRouteValue(x) < 16 && DataRouteByValue(DataRouteValue(x)) == Some(x)
  {
  }

  lemma DataRouteNumbered(v: nat)
    requires v < 16
    ensures DataRouteByValue(v).Some? ==> DataRouteValue(DataRouteByValue(v).value) == v
  {
  }

  function DataRouteNaming(): (naming: Naming<RouteSource<DataSource>>)
    ensures naming.Faithful()
  {
    DataRouteFaithful();
    Naming(DataRouteValue, DataRouteByValue, 4)
  }

  lemma DataRouteFaithful()
    ensures Naming(DataRouteValue, DataRouteByValue, 4).Faithful()
  {
    Powers();
    hide DataRouteValue, DataRouteByValue;
    forall x: RouteSource<DataSource>
      ensures DataRouteValue(x) < PowerOfTwo(4) && DataRouteByValue(DataRouteValue(x)) == Some(x)
    {
      DataRouteNamed(x);
    }
    forall v: nat | v < PowerOfTwo(4) && DataRouteByValue(v).Some?
      ensures DataRouteValue(DataRouteByValue(v).value) == v
    {
      DataRouteNumbered(v);
    }
  }

  lemma PredRouteNamed(x: RouteSource<PredSource>)
    ensures PredRouteValue(x) < 16 && PredRouteByValue(PredRouteValue(x)) == Some(x)
  {
  }

  lemma PredRouteNumbered(v: nat)
    requires v < 16
    ensures PredRouteByValue(v).Some? ==> PredRouteValue(PredRouteByValue(v).value) == v
  {
  }

  function PredRouteNaming(): (naming: Naming<RouteSource<PredSource>>)
    ensures naming.Faithful()
  {
    PredRouteFaithful();
    Naming(PredRouteValue, PredRouteByValue, 4)
  }

  lemma PredRouteFaithful()
    ensures Naming(PredRouteValue, PredRouteByValue, 4).Faithful()
  {
    Powers();
    hide PredRouteValue, PredRouteByValue;
    forall x: RouteSource<PredSource>
      ensures PredRouteValue(x) < PowerOfTwo(4) && PredRouteByValue(PredRouteValue(x)) == Some(x)
    {
      PredRouteNamed(x);
    }
    forall v: nat | v < PowerOfTwo(4) && PredRouteByValue(v).Some?
      ensures PredRouteValue(PredRouteByValue(v).value) == v
    {
      PredRouteNumbered(v);
    }
  }

  lemma LsuNamed(x: LsuOp)
    ensures LsuOpValue(x) < 4 && LsuOpByValue(LsuOpValue(x)) == Some(x)
  {
  }

  lemma LsuNumbered(v: nat)
    requires v < 4
    ensures LsuOpByValue(v).Some? ==> LsuOpValue(LsuOpByValue(v).value) == v
  {
  }

  function LsuNaming(): (naming: Naming<LsuOp>)
    ensures naming.Faithful()
  {
    LsuFaithful();
    Naming(LsuOpValue, LsuOpByValue, 2)
  }

  lemma LsuFaithful()
    ensures Naming(LsuOpValue, LsuOpByValue, 2).Faithful()
  {
    Powers();
    hide LsuOpValue, LsuOpByValue;
    forall x: LsuOp
      ensures LsuOpValue(x) < PowerOfTwo(2) && LsuOpByValue(LsuOpValue(x)) == Some(x)
    {
      LsuNamed(x);
    }
    forall v: nat | v < PowerOfTwo(2) && LsuOpByValue(v).Some?
      ensures LsuOpValue(LsuOpByValue(v).value) == v
    {
      LsuNumbered(v);
    }
  }

  lemma Powers()
    ensures PowerOfTwo(1) == 2 && PowerOfTwo(2) == 4 && PowerOfTwo(4) == 16 && PowerOfTwo(6) == 64
  {
    assert PowerOfTwo(3) == 8;
    assert PowerOfTwo(5) == 32;
  }

  // ----- The numbers in order -----

  // The operations on data words, those comparing them, and those on predicates alone.
  const DATA_OPERATIONS: seq<FuOp> := [NOP, PASS, ADD, SUB, MUL, AND, OR, XOR, SHL, LSHR, SELECT]
  const COMPARISONS: seq<FuOp> := [CMP_EQ, CMP_NE, CMP_ULT, CMP_ULE]
  const PREDICATE_OPERATIONS: seq<FuOp> := [PPASS, PNOT, PAND, POR]

  // Operands start from the registers, routes from nothing and the ports.
  const DATA_SOURCES: seq<DataSource> :=
    [DataRegA, DataRegB, DataIn(North), DataIn(South), DataIn(East), DataIn(West), ConstData, LoadData, ZeroData]
  const PRED_SOURCES: seq<PredSource> :=
    [PredRegA, PredRegB, PredIn(North), PredIn(South), PredIn(East), PredIn(West), ConstTrue, ConstFalse]
  const DATA_ROUTES: seq<RouteSource<DataSource>> :=
    [NoRoute, From(DataIn(North)), From(DataIn(South)), From(DataIn(East)), From(DataIn(West)), FuResult, From(DataRegA),
     From(DataRegB), From(ConstData), From(LoadData), From(ZeroData)]
  const PRED_ROUTES: seq<RouteSource<PredSource>> :=
    [NoRoute, From(PredIn(North)), From(PredIn(South)), From(PredIn(East)), From(PredIn(West)), FuResult, From(PredRegA),
     From(PredRegB), From(ConstTrue), From(ConstFalse)]
  const MEMORY_OPERATIONS: seq<LsuOp> := [LsuNone, LsuLoad, LsuStore, LsuReserved]

  ghost predicate Consecutive<T(!new)>(value: T -> nat, names: seq<T>, first: nat) {
    forall k :: 0 <= k < |names| ==> value(names[k]) == first + k
  }

  /** Each family of operations is numbered from a multiple of 16 on; there are no others. */
  lemma OperationsInOrder()
    ensures Consecutive(OpValue, DATA_OPERATIONS, 0)
    ensures Consecutive(OpValue, COMPARISONS, 16)
    ensures Consecutive(OpValue, PREDICATE_OPERATIONS, 32)
    ensures forall op :: op in DATA_OPERATIONS || op in COMPARISONS || op in PREDICATE_OPERATIONS
  {
    forall op
      ensures op in DATA_OPERATIONS || op in COMPARISONS || op in PREDICATE_OPERATIONS
    {
      ListedOperation(op);
    }
  }

  lemma ListedOperation(op: FuOp)
    ensures op in DATA_OPERATIONS || op in COMPARISONS || op in PREDICATE_OPERATIONS
  {
    var family := if OpValue(op) < 16 then DATA_OPERATIONS else if OpValue(op) < 32 then COMPARISONS else PREDICATE_OPERATIONS;
    assert family[OpValue(op) % 16] == op;
  }

  /** Operands are numbered without gaps in the order of their lists, which hold them all. */
  lemma OperandsInOrder()
    ensures Consecutive(DataSourceValue, DATA_SOURCES, 0) && forall src :: src in DATA_SOURCES
    ensures Consecutive(PredSourceValue, PRED_SOURCES, 0) && forall src :: src in PRED_SOURCES
  {
    forall src: DataSource
      ensures src in DATA_SOURCES
    {
      assert DATA_SOURCES[DataSourceValue(src)] == src;
    }
    forall src: PredSource
      ensures src in PRED_SOURCES
    {
      assert PRED_SOURCES[PredSourceValue(src)] == src;
    }
  }

  /** So are the sources of routes. */
  lemma RoutesInOrder()
    ensures Consecutive(DataRouteValue, DATA_ROUTES, 0) && forall src :: src in DATA_ROUTES
    ensures Consecutive(PredRouteValue, PRED_ROUTES, 0) && forall src :: src in PRED_ROUTES
  {
    forall src: RouteSource<DataSource>
      ensures src in DATA_ROUTES
    {
      assert DATA_ROUTES[DataRouteValue(src)] == src;
    }
    forall src: RouteSource<PredSource>
      ensures src in PRED_ROUTES
    {
      assert PRED_ROUTES[PredRouteValue(src)] == src;
    }
  }

  /** And the memory operations. */
  lemma MemoryInOrder()
    ensures Consecutive(LsuOpValue, MEMORY_OPERATIONS, 0) && forall op :: op in MEMORY_OPERATIONS
  {
    forall op: LsuOp
      ensures op in MEMORY_OPERATIONS
    {
      assert MEMORY_OPERATIONS[LsuOpValue(op)] == op;
    }
  }
}
