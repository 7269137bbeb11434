// Modulo legality is legality in absolute time, across all iterations of the unrolled loop.

module AbsoluteTime {
  import opened Wrappers
  import opened Mesh
  import opened Target
  import opened Resources
  import opened Reservation
  import opened Mapping
  import opened Ledger
  import ModuloArithmetic

  const U64_MAX: int := 0xFFFF_FFFF_FFFF_FFFF

  /** A piece of hardware, whatever the cycle. */
  datatype Unit = FUOf(tile: TileCoord) | LSUOf(tile: TileCoord) | LinkOf(domain: NetworkDomain, tile: TileCoord, direction: Direction)

  function UnitOf(r: Resource): Unit {
    match r
    case FU(tile, _) => FUOf(tile)
    case LSU(tile, _) => LSUOf(tile)
    case Link(domain, tile, direction, _) => LinkOf(domain, tile, direction)
  }

  lemma SameUnit(a: Resource, b: Resource)
    requires UnitOf(a) == UnitOf(b) && a.slot == b.slot
    ensures a == b
  {
  }

  // ----- Logical issue times -----

  // The issue time of a staged node, or None where 64 bits do not hold it.
  function LogicalIssueTime(stage: nat, slot: nat, ii: nat): Option<nat>
    requires slot <= U64_MAX
  {
    if ii != 0 && stage > (U64_MAX - slot) / ii then None
    else if stage * ii > U64_MAX - slot then None
    else Some(stage * ii + slot)
  }

  // The guard refuses exactly the times that do not fit.
  lemma IssueTimeExact(stage: nat, slot: nat, ii: nat)
    requires slot <= U64_MAX
    ensures LogicalIssueTime(stage, slot, ii) ==
            if stage * ii + slot <= U64_MAX then Some(stage * ii + slot) else None
  {
    if ii != 0 {
      var q := (U64_MAX - slot) / ii;
      assert U64_MAX - slot == q * ii + (U64_MAX - slot) % ii;
      ModuloArithmetic.MultipleBounds(stage - q, ii);
      assert (stage - q) * ii == stage * ii - q * ii;
    }
  }

  // ----- Uses in absolute time -----

  // When the link steps of a transport fire, relative to the producer's issue.
  function ElapsedOf(actions: seq<TransportAction>): seq<nat> {
    if actions == [] then []
    else
      var last := actions[|actions| - 1];
      ElapsedOf(actions[..|actions| - 1]) + (if last.LinkStep? then [last.elapsed] else [])
  }

  lemma {:induction false} LinksFire(ctx: RouteContext, actions: seq<TransportAction>)
    requires 0 < ctx.ii
    ensures |ElapsedOf(actions)| == |LinksOf(ctx, actions)|
    ensures forall k :: 0 <= k < |ElapsedOf(actions)| ==> LinksOf(ctx, actions)[k].slot == ctx.SlotAt(ElapsedOf(actions)[k])
  {
    hide Advance;
    if actions != [] {
      LinksFire(ctx, actions[..|actions| - 1]);
    }
  }

  /** A mapping with a pipeline stage for every node placed. */
  datatype Staged = Staged(
    dfg: TargetDFG,
    target: TargetModel,
    ii: nat,
    placements: map<nat, NodePlacement>,
    dependences: map<nat, MappedDependence>,
    stages: map<nat, nat>)
  {
    ghost predicate Valid() {
      && 0 < ii && dfg.UniqueIds()
      && stages.Keys >= placements.Keys
    }

    ghost function Claim(o: Owner): seq<Resource> {
      ClaimOf(dfg, target, ii, placements, dependences, o)
    }

    // The node whose issue an owner's uses are timed from.
    ghost function Anchor(o: Owner): nat {
      if o.kind == EdgeOwner && dfg.HasEdge(o.id) then dfg.Edge(o.id).src else o.id
    }

    // Use number k of an owner, in cycles after its anchor issues.
    ghost function Offset(o: Owner, k: nat): nat {
      if o.kind == NodeOwner then k
      else if o.id in dependences && dependences[o.id].transport.Some? &&
              k < |ElapsedOf(dependences[o.id].transport.value.actions)|
           then ElapsedOf(dependences[o.id].transport.value.actions)[k] else 0
    }

    ghost function IssueTime(node: nat): nat {
      if node in placements && node in stages then stages[node] * ii + placements[node].issueSlot else 0
    }

    // The absolute cycle of use k of an owner in an iteration.
    ghost function Cycle(o: Owner, k: nat, iteration: int): int {
      IssueTime(Anchor(o)) + Offset(o, k) + iteration * ii
    }

    // Two different uses never need the same unit in the same cycle.
    ghost predicate ConflictFree() {
      forall o1, k1: nat, n1: int, o2, k2: nat, n2: int ::
        Clash(o1, k1, n1, o2, k2, n2) ==> o1 == o2 && k1 == k2 && n1 == n2
    }

    ghost predicate Clash(o1: Owner, k1: nat, n1: int, o2: Owner, k2: nat, n2: int) {
      && k1 < |Claim(o1)| && k2 < |Claim(o2)|
      && UnitOf(Claim(o1)[k1]) == UnitOf(Claim(o2)[k2])
      && Cycle(o1, k1, n1) == Cycle(o2, k2, n2)
    }

    // A use falls into the modulo slot its claim names.
    lemma UseSlot(o: Owner, k: nat, iteration: int)
      requires Valid() && k < |Claim(o)|
      ensures Claim(o)[k].slot == Cycle(o, k, iteration) % ii
    {
      hide *;
      ClaimSlot(o, k);
      var node := Anchor(o);
      CycleIs(o, k, iteration);
      ModuloArithmetic.AddMultiple(placements[node].issueSlot + Offset(o, k), stages[node] + iteration, ii);
    }

    lemma CycleIs(o: Owner, k: nat, iteration: int)
      requires Anchor(o) in placements && Anchor(o) in stages
      ensures Cycle(o, k, iteration) ==
        placements[Anchor(o)].issueSlot + Offset(o, k) + (stages[Anchor(o)] + iteration) * ii
    {
      hide Anchor, Offset;
      Spread(stages[Anchor(o)], iteration);
    }

    lemma Spread(a: int, b: int)
      ensures (a + b) * ii == a * ii + b * ii
    {
    }

    lemma ClaimSlot(o: Owner, k: nat)
      requires Valid() && k < |Claim(o)|
      ensures 0 < ii && Anchor(o) in placements && Anchor(o) in stages
      ensures Claim(o)[k].slot == (placements[Anchor(o)].issueSlot + Offset(o, k)) % ii
    {
      match o.kind
      case NodeOwner => AdvanceIsSum(placements[o.id].issueSlot, k, ii);
      case EdgeOwner =>
        var edge := dfg.Edge(o.id);
        var ctx := ContextFor(target, ii, edge.kind, placements[edge.src]);
        var actions := dependences[o.id].transport.value.actions;
        LinksFire(ctx, actions);
        AdvanceIsSum(placements[edge.src].issueSlot, ElapsedOf(actions)[k], ii);
    }

    // Uses that clash claim the same modulo resource.
    lemma ClashIsOverlap(o1: Owner, k1: nat, n1: int, o2: Owner, k2: nat, n2: int)
      requires Valid() && Clash(o1, k1, n1, o2, k2, n2)
      ensures Claim(o1)[k1] == Claim(o2)[k2]
    {
      hide ClaimOf;
      UseSlot(o1, k1, n1);
      UseSlot(o2, k2, n2);
      SameUnit(Claim(o1)[k1], Claim(o2)[k2]);
    }

    // Uses that claim the same modulo resource clash in some iterations.
    lemma OverlapClashes(o1: Owner, k1: nat, o2: Owner, k2: nat) returns (n1: int, n2: int)
      requires Valid() && k1 < |Claim(o1)| && k2 < |Claim(o2)| && Claim(o1)[k1] == Claim(o2)[k2]
      ensures Clash(o1, k1, n1, o2, k2, n2)
    {
      hide ClaimOf;
      UseSlot(o1, k1, 0);
      UseSlot(o2, k2, 0);
      var d := ModuloArithmetic.EqualResidues(Cycle(o1, k1, 0), Cycle(o2, k2, 0), ii);
      n1, n2 := 0, d;
    }
  }

  ghost predicate ModuloConflictFree(s: Staged) {
    && ClaimsDisjoint(s.dfg, s.target, s.ii, s.placements, s.dependences)
    && forall o :: Distinct(s.Claim(o))
  }

  /** Whatever the stages: no two uses meet in absolute time exactly when no two claims meet in modulo time. */
  lemma ModuloIsAbsolute(s: Staged)
    requires s.Valid()
    ensures s.ConflictFree() <==> ModuloConflictFree(s)
  {
    hide ClaimOf;
    if ModuloConflictFree(s) {
      forall o1, k1: nat, n1: int, o2, k2: nat, n2: int | s.Clash(o1, k1, n1, o2, k2, n2)
        ensures o1 == o2 && k1 == k2 && n1 == n2
      {
        SoleUse(s, o1, k1, n1, o2, k2, n2);
      }
    }
    if s.ConflictFree() {
      AbsoluteMeansModulo(s);
    }
  }

  lemma SoleUse(s: Staged, o1: Owner, k1: nat, n1: int, o2: Owner, k2: nat, n2: int)
    requires s.Valid() && ModuloConflictFree(s) && s.Clash(o1, k1, n1, o2, k2, n2)
    ensures o1 == o2 && k1 == k2 && n1 == n2
  {
    hide ClaimOf;
    s.ClashIsOverlap(o1, k1, n1, o2, k2, n2);
    var r := s.Claim(o1)[k1];
    assert r in ClaimOf(s.dfg, s.target, s.ii, s.placements, s.dependences, o1);
    assert r in ClaimOf(s.dfg, s.target, s.ii, s.placements, s.dependences, o2);
    assert o1 == o2;
    assert Distinct(s.Claim(o1));
    assert k1 == k2;
    assert n1 * s.ii == n2 * s.ii;
    ModuloArithmetic.MultipleBounds(n1 - n2, s.ii);
    assert (n1 - n2) * s.ii == n1 * s.ii - n2 * s.ii;
  }

  lemma AbsoluteMeansModulo(s: Staged)
    requires s.Valid() && s.ConflictFree()
    ensures ModuloConflictFree(s)
  {
    hide ClaimOf;
    forall o1, o2, r |
      && r in ClaimOf(s.dfg, s.target, s.ii, s.placements, s.dependences, o1)
      && r in ClaimOf(s.dfg, s.target, s.ii, s.placements, s.dependences, o2)
      ensures o1 == o2
    {
      assert r in s.Claim(o1) && r in s.Claim(o2);
      var k1: nat :| k1 < |s.Claim(o1)| && s.Claim(o1)[k1] == r;
      var k2: nat :| k2 < |s.Claim(o2)| && s.Claim(o2)[k2] == r;
      var n1, n2 := s.OverlapClashes(o1, k1, o2, k2);
    }
    forall o
      ensures Distinct(s.Claim(o))
    {
      forall i, j | 0 <= i < j < |s.Claim(o)|
        ensures s.Claim(o)[i] != s.Claim(o)[j]
      {
        if s.Claim(o)[i] == s.Claim(o)[j] {
          var n1, n2 := s.OverlapClashes(o, i, o, j);
        }
      }
    }
  }

  /** A mapping the verifier accepts is free of conflicts in absolute time under every stage assignment. */
  lemma LegalIsConflictFree(dfg: TargetDFG, target: TargetModel, ii: nat, placements: map<nat, NodePlacement>,
                            dependences: map<nat, MappedDependence>, stages: map<nat, nat>)
    requires target.Valid() && dfg.UniqueIds() && LegalMaps(dfg, target, ii, placements, dependences)
    requires stages.Keys >= placements.Keys
    ensures Staged(dfg, target, ii, placements, dependences, stages).ConflictFree()
  {
    var s := Staged(dfg, target, ii, placements, dependences, stages);
    forall o
      ensures Distinct(s.Claim(o))
    {
      LegalClaimDistinct(dfg, target, ii, placements, dependences, o);
    }
    ModuloIsAbsolute(s);
  }

  lemma LegalClaimDistinct(dfg: TargetDFG, target: TargetModel, ii: nat, placements: map<nat, NodePlacement>,
                           dependences: map<nat, MappedDependence>, o: Owner)
    requires dfg.UniqueIds() && LegalMaps(dfg, target, ii, placements, dependences)
    ensures Distinct(ClaimOf(dfg, target, ii, placements, dependences, o))
  {
    match o.kind
    case NodeOwner =>
      if o.id in placements && dfg.HasNode(o.id) {
        var node := dfg.Node(o.id);
        assert NodeLegal(target, ii, node, placements[o.id]);
        FootprintDistinct(target.operations[node.operation], placements[o.id].tile, placements[o.id].issueSlot, ii);
      }
    case EdgeOwner =>
      if o.id in dependences && dfg.HasEdge(o.id) {
        assert DependenceLegal(dfg, target, ii, dfg.Edge(o.id), placements, dependences[o.id]);
      }
  }
}
