// The dense numbering of (tile, slot) routing states.

module RouteStates {
  import opened Mesh
  import opened Target
  import opened Walks
  import ModuloArithmetic

  function StateCount(target: TargetModel, ii: nat): nat {
    target.rows * target.cols * ii
  }

  predicate InRange(target: TargetModel, ii: nat, state: RouteState) {
    InArray(state.tile, target.rows, target.cols) && state.slot < ii
  }

  function StateId(target: TargetModel, state: RouteState): nat {
    (state.slot * target.rows + state.tile.row) * target.cols + state.tile.col
  }

  function StateFor(target: TargetModel, id: nat): RouteState
    requires 0 < target.rows && 0 < target.cols
  {
    var perSlot := target.rows * target.cols;
    ModuloArithmetic.PositiveProduct(target.rows, target.cols);
    var slot := id / perSlot;
    var within := id % perSlot;
    RouteState(TileCoord(within / target.cols, within % target.cols), slot)
  }

  // Numbering and denumbering are inverse on in-range states.
  lemma StateRoundTrip(target: TargetModel, ii: nat, state: RouteState)
    requires 0 < target.rows && 0 < target.cols && InRange(target, ii, state)
    ensures StateId(target, state) < StateCount(target, ii)
    ensures StateFor(target, StateId(target, state)) == state
  {
    var rows, cols, slot := target.rows, target.cols, state.slot;
    var row, col := state.tile.row, state.tile.col;
    var perSlot := rows * cols;
    var within := row * cols + col;
    ModuloArithmetic.PositiveProduct(rows, cols);
    ModuloArithmetic.MixedBound(row, rows, col, cols);
    ModuloArithmetic.MixedBound(slot, ii, within, perSlot);
    assert StateId(target, state) == slot * perSlot + within by {
      assert (slot * rows + row) * cols == slot * rows * cols + row * cols;
      assert slot * rows * cols == slot * perSlot by {
        ModuloArithmetic.Associate(slot, rows, cols);
      }
    }
    ModuloArithmetic.Associate(rows, cols, ii);
    assert ii * perSlot == StateCount(target, ii) by {
      assert ii * perSlot == perSlot * ii;
    }
    ModuloArithmetic.DivModUnique(slot * perSlot + within, slot, within, perSlot);
    ModuloArithmetic.DivModUnique(within, row, col, cols);
  }

  lemma IdRoundTrip(target: TargetModel, ii: nat, id: nat)
    requires 0 < target.rows && 0 < target.cols && id < StateCount(target, ii)
    ensures InRange(target, ii, StateFor(target, id))
    ensures StateId(target, StateFor(target, id)) == id
  {
    var rows, cols := target.rows, target.cols;
    var perSlot := rows * cols;
    ModuloArithmetic.PositiveProduct(rows, cols);
    var slot, within := id / perSlot, id % perSlot;
    ModuloArithmetic.QuotientBound(id, perSlot, ii);
    ModuloArithmetic.QuotientBound(within, cols, rows);
    var row, col := within / cols, within % cols;
    assert id == slot * perSlot + within;
    assert within == row * cols + col;
    assert (slot * rows + row) * cols == slot * rows * cols + row * cols;
    ModuloArithmetic.Associate(slot, rows, cols);
  }

  lemma IdsDistinguish(target: TargetModel, ii: nat, a: RouteState, b: RouteState)
    requires 0 < target.rows && 0 < target.cols && InRange(target, ii, a) && InRange(target, ii, b)
    requires StateId(target, a) == StateId(target, b)
    ensures a == b
  {
    StateRoundTrip(target, ii, a);
    StateRoundTrip(target, ii, b);
  }

  // A set of state ids cannot outgrow the state count.
  lemma IdSetBound(ids: set<nat>, count: nat)
    requires forall id :: id in ids ==> id < count
    ensures |ids| <= count
  {
    if count == 0 {
      assert ids == {};
    } else {
      IdSetBound(ids - {count - 1}, count - 1);
    }
  }
}
