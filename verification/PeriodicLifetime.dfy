// Do two periodic register lifetimes ever collide?  Three shifts decide it for all time.

module PeriodicLifetime {
  import ModuloArithmetic

  datatype ReadWritePolicy = Forbidden | ReadOldThenWriteNew

  /** A value written at one cycle and last read at another, once per iteration. */
  datatype Segment = Segment(writeTime: nat, readTime: nat)

  // A register may be written in the very cycle of its last read only under the read-old policy.
  predicate IntervalsConflict(lhsWrite: int, lhsRead: int, rhsWrite: int, rhsRead: int, policy: ReadWritePolicy) {
    var overlapStart := if lhsWrite > rhsWrite then lhsWrite else rhsWrite;
    var overlapEnd := if lhsRead < rhsRead then lhsRead else rhsRead;
    overlapStart < overlapEnd || (overlapStart == overlapEnd && policy != ReadOldThenWriteNew)
  }

  // Iteration i of one lifetime against iteration j of another.
  predicate InstancesConflict(lhs: Segment, i: int, rhs: Segment, j: int, ii: nat, policy: ReadWritePolicy) {
    IntervalsConflict(lhs.writeTime + i * ii, lhs.readTime + i * ii, rhs.writeTime + j * ii, rhs.readTime + j * ii, policy)
  }

  // Two different iterations of one lifetime get in each other's way.
  ghost predicate EverSelfConflict(s: Segment, ii: nat, policy: ReadWritePolicy) {
    exists i: int, j: int :: i != j && InstancesConflict(s, i, s, j, ii, policy)
  }

  // Some iteration of one lifetime gets in the way of some iteration of the other.
  ghost predicate EverConflict(lhs: Segment, rhs: Segment, ii: nat, policy: ReadWritePolicy) {
    exists i: int, j: int :: InstancesConflict(lhs, i, rhs, j, ii, policy)
  }

  // ----- What a conflict is -----

  /** The register is iteration i's in this cycle: until the last read, and from the write on or only after it. */
  predicate Holds(s: Segment, i: int, ii: nat, policy: ReadWritePolicy, cycle: int) {
    var written, read := s.writeTime + i * ii, s.readTime + i * ii;
    match policy
    case ReadOldThenWriteNew => written < cycle <= read
    case Forbidden => written <= cycle <= read
  }

  ghost predicate Meet(lhs: Segment, i: int, rhs: Segment, j: int, ii: nat, policy: ReadWritePolicy) {
    exists cycle :: Holds(lhs, i, ii, policy, cycle) && Holds(rhs, j, ii, policy, cycle)
  }

  /** In some cycle, one register would have to hold both values. */
  ghost predicate EverMeet(lhs: Segment, rhs: Segment, ii: nat, policy: ReadWritePolicy) {
    exists i: int, j: int :: Meet(lhs, i, rhs, j, ii, policy)
  }

  /** In some cycle, one register would have to hold the values of two iterations. */
  ghost predicate EverMeetsItself(s: Segment, ii: nat, policy: ReadWritePolicy) {
    exists i: int, j: int :: i != j && Meet(s, i, s, j, ii, policy)
  }

  // Instances conflict exactly when they meet in some cycle.
  lemma ConflictIsMeeting(lhs: Segment, i: int, rhs: Segment, j: int, ii: nat, policy: ReadWritePolicy)
    ensures InstancesConflict(lhs, i, rhs, j, ii, policy) <==> Meet(lhs, i, rhs, j, ii, policy)
  {
    var written := if lhs.writeTime + i * ii > rhs.writeTime + j * ii then lhs.writeTime + i * ii else rhs.writeTime + j * ii;
    var cycle := if policy == Forbidden then written else written + 1;
    if InstancesConflict(lhs, i, rhs, j, ii, policy) {
      assert Holds(lhs, i, ii, policy, cycle) && Holds(rhs, j, ii, policy, cycle);
    }
  }

  lemma EverIsEver(lhs: Segment, rhs: Segment, ii: nat, policy: ReadWritePolicy)
    ensures EverConflict(lhs, rhs, ii, policy) <==> EverMeet(lhs, rhs, ii, policy)
    ensures EverSelfConflict(lhs, ii, policy) <==> EverMeetsItself(lhs, ii, policy)
  {
    forall i: int, j: int
      ensures InstancesConflict(lhs, i, rhs, j, ii, policy) <==> Meet(lhs, i, rhs, j, ii, policy)
      ensures InstancesConflict(lhs, i, lhs, j, ii, policy) <==> Meet(lhs, i, lhs, j, ii, policy)
    {
      ConflictIsMeeting(lhs, i, rhs, j, ii, policy);
      ConflictIsMeeting(lhs, i, lhs, j, ii, policy);
    }
    hide InstancesConflict, Meet;
    if EverConflict(lhs, rhs, ii, policy) {
      var i: int, j: int :| InstancesConflict(lhs, i, rhs, j, ii, policy);
      assert Meet(lhs, i, rhs, j, ii, policy);
    }
    if EverMeet(lhs, rhs, ii, policy) {
      var i: int, j: int :| Meet(lhs, i, rhs, j, ii, policy);
      assert InstancesConflict(lhs, i, rhs, j, ii, policy);
    }
    if EverSelfConflict(lhs, ii, policy) {
      var i: int, j: int :| i != j && InstancesConflict(lhs, i, lhs, j, ii, policy);
      assert Meet(lhs, i, lhs, j, ii, policy);
    }
    if EverMeetsItself(lhs, ii, policy) {
      var i: int, j: int :| i != j && Meet(lhs, i, lhs, j, ii, policy);
      assert InstancesConflict(lhs, i, lhs, j, ii, policy);
    }
  }

  // ----- The tests -----

  predicate FixedRegisterSelfOverlaps(s: Segment, ii: nat, policy: ReadWritePolicy) {
    if ii == 0 || s.readTime <= s.writeTime then true
    else
      var duration := s.readTime - s.writeTime;
      if duration > ii then true else if duration < ii then false else policy != ReadOldThenWriteNew
  }

  predicate PeriodicLifetimesConflict(lhs: Segment, rhs: Segment, ii: nat, policy: ReadWritePolicy) {
    if ii == 0 || lhs.readTime <= lhs.writeTime || rhs.readTime <= rhs.writeTime then true
    else
      var lhsDuration, rhsDuration := lhs.readTime - lhs.writeTime, rhs.readTime - rhs.writeTime;
      if lhsDuration > ii || rhsDuration > ii then true
      else
        var lhsWrite, rhsWrite := lhs.writeTime % ii, rhs.writeTime % ii;
        var lhsRead, rhsRead := lhsWrite + lhsDuration, rhsWrite + rhsDuration;
        || IntervalsConflict(lhsWrite, lhsRead, rhsWrite - ii, rhsRead - ii, policy)
        || IntervalsConflict(lhsWrite, lhsRead, rhsWrite, rhsRead, policy)
        || IntervalsConflict(lhsWrite, lhsRead, rhsWrite + ii, rhsRead + ii, policy)
  }

  // Moving both intervals by the same amount changes nothing.
  lemma ShiftBoth(lhsWrite: int, lhsRead: int, rhsWrite: int, rhsRead: int, delta: int, policy: ReadWritePolicy)
    ensures IntervalsConflict(lhsWrite + delta, lhsRead + delta, rhsWrite + delta, rhsRead + delta, policy) <==>
            IntervalsConflict(lhsWrite, lhsRead, rhsWrite, rhsRead, policy)
  {
  }

  lemma ConflictSymmetric(lhsWrite: int, lhsRead: int, rhsWrite: int, rhsRead: int, policy: ReadWritePolicy)
    ensures IntervalsConflict(lhsWrite, lhsRead, rhsWrite, rhsRead, policy) <==>
            IntervalsConflict(rhsWrite, rhsRead, lhsWrite, lhsRead, policy)
  {
  }

  // The residues of the two lifetimes, k periods apart.
  predicate ResidueConflict(lhs: Segment, rhs: Segment, k: int, ii: nat, policy: ReadWritePolicy)
    requires 0 < ii
  {
    var a, b := lhs.writeTime % ii, rhs.writeTime % ii;
    IntervalsConflict(a, a + (lhs.readTime - lhs.writeTime), b + k * ii, b + (rhs.readTime - rhs.writeTime) + k * ii, policy)
  }

  // How many periods apart instances i and j are.
  function Apart(lhs: Segment, i: int, rhs: Segment, j: int, ii: nat): int
    requires 0 < ii
  {
    rhs.writeTime / ii + j - lhs.writeTime / ii - i
  }

  // Instances collide exactly when the residues do, that many periods apart.
  lemma InstancesByResidue(lhs: Segment, i: int, rhs: Segment, j: int, ii: nat, policy: ReadWritePolicy)
    requires 0 < ii
    ensures InstancesConflict(lhs, i, rhs, j, ii, policy) <==>
            ResidueConflict(lhs, rhs, Apart(lhs, i, rhs, j, ii), ii, policy)
  {
    hide IntervalsConflict;
    var a, b := lhs.writeTime % ii, rhs.writeTime % ii;
    var d1, d2 := lhs.readTime - lhs.writeTime, rhs.readTime - rhs.writeTime;
    var k := Apart(lhs, i, rhs, j, ii);
    var m := lhs.writeTime / ii + i;
    Unroll(lhs.writeTime, i, ii);
    Unroll(rhs.writeTime, j, ii);
    Distribute(k, m, ii);
    assert k + m == rhs.writeTime / ii + j;
    ShiftBoth(a, a + d1, b + k * ii, b + d2 + k * ii, m * ii, policy);
  }

  // A time, some periods later, from its residue.
  lemma Unroll(time: nat, i: int, ii: nat)
    requires 0 < ii
    ensures time + i * ii == time % ii + (time / ii + i) * ii
  {
    Distribute(time / ii, i, ii);
    assert time == time / ii * ii + time % ii;
  }

  lemma Distribute(a: int, b: int, c: int)
    ensures (a + b) * c == a * c + b * c
  {
  }

  // Every distance in periods is the distance of some instances.
  lemma AnyDistance(lhs: Segment, rhs: Segment, k: int, ii: nat, policy: ReadWritePolicy)
    requires 0 < ii && ResidueConflict(lhs, rhs, k, ii, policy)
    ensures EverConflict(lhs, rhs, ii, policy)
  {
    hide ResidueConflict, InstancesConflict;
    var j := k + lhs.writeTime / ii - rhs.writeTime / ii;
    InstancesByResidue(lhs, 0, rhs, j, ii, policy);
    assert InstancesConflict(lhs, 0, rhs, j, ii, policy);
  }

  // With both durations within one period, only neighbouring periods can collide.
  lemma FarApart(lhs: Segment, rhs: Segment, k: int, ii: nat, policy: ReadWritePolicy)
    requires 0 < ii && lhs.readTime <= lhs.writeTime + ii && rhs.readTime <= rhs.writeTime + ii
    requires k >= 2 || k <= -2
    ensures !ResidueConflict(lhs, rhs, k, ii, policy)
  {
    if k >= 2 {
      ModuloArithmetic.MultipleBounds(k - 1, ii);
      assert k * ii == (k - 1) * ii + ii;
    } else {
      ModuloArithmetic.MultipleBounds(k + 1, ii);
      assert k * ii == (k + 1) * ii - ii;
    }
  }

  // The shifts tried are the distances -1, 0 and 1.
  lemma ShiftsAreDistances(lhs: Segment, rhs: Segment, ii: nat, policy: ReadWritePolicy)
    requires 0 < ii && lhs.writeTime < lhs.readTime <= lhs.writeTime + ii
    requires rhs.writeTime < rhs.readTime <= rhs.writeTime + ii
    ensures PeriodicLifetimesConflict(lhs, rhs, ii, policy) <==>
      || ResidueConflict(lhs, rhs, -1, ii, policy)
      || ResidueConflict(lhs, rhs, 0, ii, policy)
      || ResidueConflict(lhs, rhs, 1, ii, policy)
  {
    hide IntervalsConflict;
    var a, b := lhs.writeTime % ii, rhs.writeTime % ii;
    var d1, d2: int := lhs.readTime - lhs.writeTime, rhs.readTime - rhs.writeTime;
    assert (-1) * ii == 0 - ii && 0 * ii == 0 && 1 * ii == ii;
    assert b + d2 + (-1) * ii == b + d2 - ii;
  }

  // A lifetime longer than the period meets every other lifetime.
  lemma LongMeetsAll(lhs: Segment, rhs: Segment, ii: nat, policy: ReadWritePolicy)
    requires 0 < ii && lhs.writeTime + ii < lhs.readTime && rhs.writeTime < rhs.readTime
    ensures EverConflict(lhs, rhs, ii, policy)
  {
    var a, b := lhs.writeTime % ii, rhs.writeTime % ii;
    var k := if b >= a then 0 else 1;
    assert k * ii == if k == 0 then 0 else ii;
    assert ResidueConflict(lhs, rhs, k, ii, policy);
    AnyDistance(lhs, rhs, k, ii, policy);
  }

  lemma EverSymmetric(lhs: Segment, rhs: Segment, ii: nat, policy: ReadWritePolicy)
    requires EverConflict(lhs, rhs, ii, policy)
    ensures EverConflict(rhs, lhs, ii, policy)
  {
    var i: int, j: int :| InstancesConflict(lhs, i, rhs, j, ii, policy);
    ConflictSymmetric(lhs.writeTime + i * ii, lhs.readTime + i * ii, rhs.writeTime + j * ii, rhs.readTime + j * ii, policy);
    assert InstancesConflict(rhs, j, lhs, i, ii, policy);
  }

  // A lifetime that is read no later than written, or has no period to be repeated in, counts as colliding.
  predicate Degenerate(s: Segment, ii: nat) {
    ii == 0 || s.readTime <= s.writeTime
  }

  lemma DegenerateConflicts(lhs: Segment, rhs: Segment, ii: nat, policy: ReadWritePolicy)
    ensures Degenerate(lhs, ii) ==> FixedRegisterSelfOverlaps(lhs, ii, policy)
    ensures Degenerate(lhs, ii) || Degenerate(rhs, ii) ==> PeriodicLifetimesConflict(lhs, rhs, ii, policy)
    ensures !Degenerate(lhs, ii) <==> 0 < ii && lhs.writeTime < lhs.readTime
    ensures !Degenerate(rhs, ii) <==> 0 < ii && rhs.writeTime < rhs.readTime
  {
  }

  /** The three shifts decide whether two lifetimes need their register in the same cycle, over all integer iterations. */
  lemma ThreeShiftsSuffice(lhs: Segment, rhs: Segment, ii: nat, policy: ReadWritePolicy)
    ensures PeriodicLifetimesConflict(lhs, rhs, ii, policy) <==>
            Degenerate(lhs, ii) || Degenerate(rhs, ii) || EverMeet(lhs, rhs, ii, policy)
  {
    hide *;
    DegenerateConflicts(lhs, rhs, ii, policy);
    if !Degenerate(lhs, ii) && !Degenerate(rhs, ii) {
      EverIsEver(lhs, rhs, ii, policy);
      ShiftsDecide(lhs, rhs, ii, policy);
    }
  }

  lemma ShiftsDecide(lhs: Segment, rhs: Segment, ii: nat, policy: ReadWritePolicy)
    requires 0 < ii && lhs.writeTime < lhs.readTime && rhs.writeTime < rhs.readTime
    ensures PeriodicLifetimesConflict(lhs, rhs, ii, policy) <==> EverConflict(lhs, rhs, ii, policy)
  {
    hide EverConflict;
    var d1, d2 := lhs.readTime - lhs.writeTime, rhs.readTime - rhs.writeTime;
    if d1 > ii {
      LongMeetsAll(lhs, rhs, ii, policy);
    } else if d2 > ii {
      LongMeetsAll(rhs, lhs, ii, policy);
      EverSymmetric(rhs, lhs, ii, policy);
    } else {
      WithinPeriod(lhs, rhs, ii, policy);
    }
  }

  lemma WithinPeriod(lhs: Segment, rhs: Segment, ii: nat, policy: ReadWritePolicy)
    requires 0 < ii && lhs.writeTime < lhs.readTime <= lhs.writeTime + ii
    requires rhs.writeTime < rhs.readTime <= rhs.writeTime + ii
    ensures PeriodicLifetimesConflict(lhs, rhs, ii, policy) <==> EverConflict(lhs, rhs, ii, policy)
  {
    hide ResidueConflict, InstancesConflict, PeriodicLifetimesConflict;
    ShiftsAreDistances(lhs, rhs, ii, policy);
    if PeriodicLifetimesConflict(lhs, rhs, ii, policy) {
      AnyDistance(lhs, rhs,
                  if ResidueConflict(lhs, rhs, -1, ii, policy) then -1
                  else if ResidueConflict(lhs, rhs, 0, ii, policy) then 0 else 1, ii, policy);
    }
    if EverConflict(lhs, rhs, ii, policy) {
      var i: int, j: int :| InstancesConflict(lhs, i, rhs, j, ii, policy);
      InstancesByResidue(lhs, i, rhs, j, ii, policy);
      var k := Apart(lhs, i, rhs, j, ii);
      if k >= 2 || k <= -2 {
        FarApart(lhs, rhs, k, ii, policy);
      }
    }
  }

  // Two iterations of one lifetime are at least a period apart.
  lemma AtLeastOnePeriod(i: int, j: int, ii: nat)
    requires 0 < ii && i != j
    ensures j * ii - i * ii >= ii || j * ii - i * ii <= 0 - ii
  {
    ModuloArithmetic.MultipleBounds(j - i, ii);
    assert (j - i) * ii == j * ii - i * ii;
  }

  // Whether two iterations collide is a matter of the time between them, which is at least a period.
  lemma OverlapAtPeriod(s: Segment, ii: nat, policy: ReadWritePolicy, a: int, b: int)
    requires 0 < ii && s.writeTime < s.readTime && (b - a >= ii || b - a <= 0 - ii)
    ensures IntervalsConflict(s.writeTime + a, s.readTime + a, s.writeTime + b, s.readTime + b, policy) ==>
      FixedRegisterSelfOverlaps(s, ii, policy)
    ensures b - a == ii && FixedRegisterSelfOverlaps(s, ii, policy) ==>
      IntervalsConflict(s.writeTime + a, s.readTime + a, s.writeTime + b, s.readTime + b, policy)
  {
  }

  lemma OverlapsDecide(s: Segment, ii: nat, policy: ReadWritePolicy)
    requires 0 < ii && s.writeTime < s.readTime
    ensures FixedRegisterSelfOverlaps(s, ii, policy) <==> EverSelfConflict(s, ii, policy)
  {
    hide FixedRegisterSelfOverlaps, IntervalsConflict;
    if FixedRegisterSelfOverlaps(s, ii, policy) {
      OverlapAtPeriod(s, ii, policy, 0 * ii, 1 * ii);
      assert InstancesConflict(s, 0, s, 1, ii, policy);
    }
    if EverSelfConflict(s, ii, policy) {
      var i: int, j: int :| i != j && InstancesConflict(s, i, s, j, ii, policy);
      AtLeastOnePeriod(i, j, ii);
      OverlapAtPeriod(s, ii, policy, i * ii, j * ii);
    }
  }

  /** The duration test says exactly when one lifetime's iterations need its register in the same cycle. */
  lemma SelfOverlapExact(s: Segment, ii: nat, policy: ReadWritePolicy)
    ensures FixedRegisterSelfOverlaps(s, ii, policy) <==> Degenerate(s, ii) || EverMeetsItself(s, ii, policy)
  {
    hide *;
    DegenerateConflicts(s, s, ii, policy);
    if !Degenerate(s, ii) {
      EverIsEver(s, s, ii, policy);
      OverlapsDecide(s, ii, policy);
    }
  }
}
