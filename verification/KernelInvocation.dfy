// What an invocation gives a kernel: its scalars and the words loaded into the scratchpad.

module KernelInvocation {
  import opened Wrappers
  import opened Kernels
  import ModuloArithmetic
  import Tile

  datatype Scalar = Scalar(id: nat, bits: nat)

  datatype Preload = Preload(address: nat, word: nat)

  datatype Invocation = Invocation(tripCount: nat, scalarInputs: seq<Scalar>, scratchpadPreload: seq<Preload>)

  // ----- The scalars -----

  function ScalarBits(inputs: seq<Scalar>, id: nat): nat {
    if inputs == [] then 0 else if inputs[0].id == id then inputs[0].bits else ScalarBits(inputs[1..], id)
  }

  function Scalars(source: Dfg, invocation: Invocation): map<nat, nat> {
    map x | x in source.externals :: ScalarBits(invocation.scalarInputs, x)
  }

  ghost predicate IdsDistinct(inputs: seq<Scalar>) {
    forall i, j :: 0 <= i < j < |inputs| ==> inputs[i].id != inputs[j].id
  }

  lemma {:induction false} BitsOf(inputs: seq<Scalar>, i: nat)
    requires IdsDistinct(inputs) && i < |inputs|
    ensures ScalarBits(inputs, inputs[i].id) == inputs[i].bits
  {
    if i > 0 {
      assert inputs[0].id != inputs[i].id;
      BitsOf(inputs[1..], i - 1);
    }
  }

  /** Of a valid invocation every scalar listed is what its external value stands for, and each of them is listed. */
  lemma ScalarsAreGiven(source: Dfg, invocation: Invocation, depth: nat, width: nat)
    requires InvocationValid(source, invocation, depth, width)
    ensures Scalars(source, invocation).Keys == source.externals.Keys
    ensures forall i :: 0 <= i < |invocation.scalarInputs| ==>
      && invocation.scalarInputs[i].id in source.externals
      && Scalars(source, invocation)[invocation.scalarInputs[i].id] == invocation.scalarInputs[i].bits
    ensures forall x :: x in source.externals ==>
      exists i :: 0 <= i < |invocation.scalarInputs| && invocation.scalarInputs[i] == Scalar(x, Scalars(source, invocation)[x])
  {
    var inputs := invocation.scalarInputs;
    assert IdsDistinct(inputs);
    hide ScalarFits;
    forall i | 0 <= i < |inputs|
      ensures ScalarBits(inputs, inputs[i].id) == inputs[i].bits
    {
      BitsOf(inputs, i);
    }
    forall x | x in source.externals
      ensures exists i :: 0 <= i < |inputs| && inputs[i] == Scalar(x, ScalarBits(inputs, x))
    {
      var i :| 0 <= i < |inputs| && inputs[i].id == x;
      assert inputs[i] == Scalar(x, inputs[i].bits);
    }
  }

  // ----- Validity -----

  predicate ScalarFits(valueType: ValueType, bits: nat, width: nat) {
    match valueType
    case Integer(own) => own == width && (own < 64 ==> bits < Tile.PowerOfTwo(own))
    case Predicate => bits <= 1
    case _ => false
  }

  // The inputs are the external values, each once, and fit their types.
  ghost predicate AllListed(source: Dfg, inputs: seq<Scalar>, width: nat) {
    && (forall i, j :: 0 <= i < j < |inputs| ==> inputs[i].id != inputs[j].id)
    && (forall i :: 0 <= i < |inputs| ==>
          inputs[i].id in source.externals && ScalarFits(source.externals[inputs[i].id].valueType, inputs[i].bits, width))
    && (forall x :: x in source.externals ==> exists i :: 0 <= i < |inputs| && inputs[i].id == x)
  }

  /** Every scalar input is given once and fits its type, and no scratchpad word is preloaded with two values. */
  ghost predicate InvocationValid(source: Dfg, invocation: Invocation, depth: nat, width: nat) {
    var inputs, preload := invocation.scalarInputs, invocation.scratchpadPreload;
    && invocation.tripCount > 0
    && AllListed(source, inputs, width)
    && (forall i :: 0 <= i < |preload| ==> preload[i].address < depth)
    && (forall i, j :: 0 <= i < j < |preload| && preload[i].address == preload[j].address ==> preload[i].word == preload[j].word)
  }

  ghost predicate NamesDistinct(source: Dfg) {
    forall x, y :: x in source.externals && y in source.externals && x != y ==>
      source.externals[x].name != source.externals[y].name
  }

  ghost predicate PreloadClear(invocation: Invocation, outputBase: nat, outputs: nat) {
    outputs != 0 ==>
      forall i :: 0 <= i < |invocation.scratchpadPreload| ==> invocation.scratchpadPreload[i].address < outputBase
  }

  function TypeBits(valueType: ValueType): nat {
    match valueType
    case Integer(own) => own
    case Predicate => 1
    case Float(own) => own
    case Void => 0
  }

  lemma NothingShiftedOut(bits: nat, d: nat)
    requires d > 0
    ensures bits / d == 0 <==> bits < d
  {
    if bits < d {
      ModuloArithmetic.DivModUnique(bits, 0, bits, d);
    }
  }

  // What is left of a scalar above its type's width must be nothing.
  method FitsType(valueType: ValueType, bits: nat, width: nat) returns (ok: bool)
    ensures ok <==> ScalarFits(valueType, bits, width)
  {
    assert Tile.PowerOfTwo(1) == 2;
    NothingShiftedOut(bits, Tile.PowerOfTwo(TypeBits(valueType)));
    if TypeBits(valueType) < 64 && bits / Tile.PowerOfTwo(TypeBits(valueType)) != 0 {
      return false;
    }
    if !valueType.Integer? && !valueType.Predicate? {
      return false;
    }
    if valueType.Integer? && valueType.bits != width {
      return false;
    }
    ok := !(valueType.Predicate? && bits > 1);
  }

  // The first n inputs are different external values and fit their types; `seen` are their IDs.
  ghost predicate Listed(source: Dfg, inputs: seq<Scalar>, n: nat, width: nat, seen: set<nat>)
    requires n <= |inputs|
  {
    && (forall x :: x in seen <==> exists j :: 0 <= j < n && inputs[j].id == x)
    && (forall j, k :: 0 <= j < k < n ==> inputs[j].id != inputs[k].id)
    && (forall j :: 0 <= j < n ==>
          inputs[j].id in source.externals && ScalarFits(source.externals[inputs[j].id].valueType, inputs[j].bits, width))
    && seen <= source.externals.Keys
  }

  lemma ListedMore(source: Dfg, inputs: seq<Scalar>, n: nat, width: nat, seen: set<nat>)
    requires n < |inputs| && Listed(source, inputs, n, width, seen)
    requires inputs[n].id !in seen && inputs[n].id in source.externals
    requires ScalarFits(source.externals[inputs[n].id].valueType, inputs[n].bits, width)
    ensures Listed(source, inputs, n + 1, width, seen + {inputs[n].id})
  {
    hide ScalarFits;
  }

  lemma NotListed(source: Dfg, inputs: seq<Scalar>, n: nat, width: nat, seen: set<nat>)
    requires n < |inputs| && Listed(source, inputs, n, width, seen)
    requires inputs[n].id in source.externals && inputs[n].id !in seen ==>
      !ScalarFits(source.externals[inputs[n].id].valueType, inputs[n].bits, width)
    ensures !AllListed(source, inputs, width)
  {
    hide ScalarFits;
  }

  lemma WhenListed(source: Dfg, inputs: seq<Scalar>, width: nat, seen: set<nat>)
    requires Listed(source, inputs, |inputs|, width, seen)
    ensures AllListed(source, inputs, width) <==> |seen| == |source.externals|
  {
    hide ScalarFits;
    SameSize(seen, source.externals.Keys);
  }

  method ScalarsValid(source: Dfg, inputs: seq<Scalar>, width: nat) returns (ok: bool)
    ensures ok <==> AllListed(source, inputs, width)
  {
    hide ScalarFits, AllListed;
    var seen: set<nat> := {};
    for i := 0 to |inputs|
      invariant Listed(source, inputs, i, width, seen)
    {
      hide Listed;
      if inputs[i].id in seen || inputs[i].id !in source.externals {
        NotListed(source, inputs, i, width, seen);
        return false;
      }
      var fits := FitsType(source.externals[inputs[i].id].valueType, inputs[i].bits, width);
      if !fits {
        NotListed(source, inputs, i, width, seen);
        return false;
      }
      ListedMore(source, inputs, i, width, seen);
      seen := seen + {inputs[i].id};
    }
    WhenListed(source, inputs, width, seen);
    ok := |seen| == |source.externals|;
  }

  lemma SameSize<T>(a: set<T>, b: set<T>)
    requires a <= b
    ensures |a| == |b| <==> a == b
  {
    assert b == a + (b - a);
  }

  method PreloadValid(preload: seq<Preload>, depth: nat) returns (ok: bool)
    ensures ok <==>
      && (forall i :: 0 <= i < |preload| ==> preload[i].address < depth)
      && (forall i, j :: 0 <= i < j < |preload| && preload[i].address == preload[j].address ==>
            preload[i].word == preload[j].word)
  {
    var addresses: set<nat> := {};
    for i := 0 to |preload|
      invariant forall j :: 0 <= j < i ==> preload[j].address < depth && preload[j].address in addresses
      invariant forall j, k :: 0 <= j < k < i && preload[j].address == preload[k].address ==> preload[j].word == preload[k].word
    {
      if preload[i].address >= depth {
        return false;
      }
      if preload[i].address in addresses {
        if j :| 0 <= j < |preload| && preload[j].address == preload[i].address && preload[j].word != preload[i].word {
          assert !(forall j, k :: 0 <= j < k < |preload| && preload[j].address == preload[k].address ==>
                     preload[j].word == preload[k].word) by {
            if j < i {
              assert preload[j].word != preload[i].word;
            } else {
              assert preload[i].word != preload[j].word;
            }
          }
          return false;
        }
      }
      addresses := addresses + {preload[i].address};
    }
    ok := true;
  }

  /** Accepts exactly the invocations that give every input once, fitting its type, and no word two values. */
  method ValidateInvocation(source: Dfg, invocation: Invocation, depth: nat, width: nat) returns (ok: bool)
    ensures ok <==> InvocationValid(source, invocation, depth, width)
  {
    hide ScalarFits;
    if invocation.tripCount == 0 {
      return false;
    }
    ok := ScalarsValid(source, invocation.scalarInputs, width);
    if ok {
      ok := PreloadValid(invocation.scratchpadPreload, depth);
    }
  }

  // No two inputs share a name.
  method NamesUnique(source: Dfg) returns (ok: bool)
    ensures ok <==> NamesDistinct(source)
  {
    var names: set<string> := {};
    var rest := source.externals.Keys;
    while rest != {}
      invariant rest <= source.externals.Keys
      invariant forall name :: name in names <==>
        exists x :: x in source.externals && x !in rest && source.externals[x].name == name
      invariant forall x, y :: x in source.externals && y in source.externals && x !in rest && y !in rest && x != y ==>
        source.externals[x].name != source.externals[y].name
      decreases rest
    {
      var x :| x in rest;
      if source.externals[x].name in names {
        return false;
      }
      rest := rest - {x};
      names := names + {source.externals[x].name};
    }
    ok := true;
  }

  // No word reserved for an output is preloaded.
  method PreloadOutside(invocation: Invocation, outputBase: nat, outputs: nat) returns (ok: bool)
    ensures ok <==> PreloadClear(invocation, outputBase, outputs)
  {
    for i := 0 to |invocation.scratchpadPreload|
      invariant outputs != 0 ==> forall j :: 0 <= j < i ==> invocation.scratchpadPreload[j].address < outputBase
    {
      if invocation.scratchpadPreload[i].address >= outputBase && outputs != 0 {
        return false;
      }
    }
    ok := true;
  }
}
