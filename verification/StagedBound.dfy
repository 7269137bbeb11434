// What the lower bound on the II says about staged mappings: it holds exactly as far as latencies promise what transports take.

module StagedBound {
  import opened Wrappers
  import opened Mesh
  import opened Target
  import opened Resources
  import opened Reservation
  import opened Mapping
  import opened Ledger
  import opened Ordering
  import opened ResourceBound
  import opened AbsoluteTime
  import Walks
  import MII

  // ----- What a transport takes -----

  /** No result is later for the analysis than one cycle after a transport may pick it up. */
  ghost predicate Prompt(dfg: TargetDFG, edge: TargetEdge) {
    edge.kind == MemoryEdge || !dfg.HasNode(edge.src) || dfg.Node(edge.src).outputReady.None? ||
    dfg.Node(edge.src).resultLatency.None? ||
    dfg.Node(edge.src).resultLatency.value <= dfg.Node(edge.src).outputReady.value + 1
  }

  // Wherever the ends of the edge are placed, its transport takes what the analysis takes for granted.
  ghost predicate NeverFaster(dfg: TargetDFG, target: TargetModel, ii: nat, edge: TargetEdge, ready: nat) {
    forall producer, consumer, plan | PlanLegal(target, ii, edge, ready, producer, consumer, plan) ::
      plan.requiredSeparation >= MII.EdgeSeparation(dfg, target, edge)
  }

  lemma TransportTakes(target: TargetModel, ii: nat, edge: TargetEdge, ready: nat, producer: NodePlacement,
                       consumer: NodePlacement, plan: TransportPlan)
    requires PlanLegal(target, ii, edge, ready, producer, consumer, plan)
    ensures plan.requiredSeparation >= ready + 1
  {
    hide Walks.Walk, LinksOf;
    Walks.FollowTakesTime(ContextFor(target, ii, edge.kind, producer), plan.actions, Availability(producer.tile, ready));
  }

  // The transport that waits a cycle where the value was made.
  function OneCycle(edge: TargetEdge, tile: TileCoord, ready: nat): TransportPlan
    requires ready < U32_MAX
  {
    TransportPlan(edge.id, DomainOf(edge.kind), [VirtualHold(DomainOf(edge.kind), tile, ready, ready + 1)], ready + 1)
  }

  lemma OneCycleIsLegal(target: TargetModel, ii: nat, edge: TargetEdge, ready: nat, producer: NodePlacement,
                        consumer: NodePlacement)
    requires 0 < ii && 0 < target.hopLatency && ready < U32_MAX && producer.tile == consumer.tile
    ensures PlanLegal(target, ii, edge, ready, producer, consumer, OneCycle(edge, producer.tile, ready))
  {
    var ctx, actions := ContextFor(target, ii, edge.kind, producer), OneCycle(edge, producer.tile, ready).actions;
    assert actions[..0] == [];
    assert Follow(ctx, [], Availability(producer.tile, ready)) == Some(Availability(producer.tile, ready));
    assert LinksOf(ctx, []) == [];
  }

  /** The analysis underestimates every transport of a value edge exactly when its producer's result is prompt. */
  lemma PromptExactly(dfg: TargetDFG, target: TargetModel, ii: nat, edge: TargetEdge)
    requires 0 < ii && 0 < target.hopLatency && edge.kind != MemoryEdge
    requires dfg.HasNode(edge.src) && dfg.Node(edge.src).outputReady.Some? && dfg.Node(edge.src).resultLatency.Some?
    ensures NeverFaster(dfg, target, ii, edge, dfg.Node(edge.src).outputReady.value) <==> Prompt(dfg, edge)
  {
    var ready := dfg.Node(edge.src).outputReady.value;
    hide PlanLegal, TargetDFG.HasNode, TargetDFG.Node;
    if Prompt(dfg, edge) {
      forall producer, consumer, plan | PlanLegal(target, ii, edge, ready, producer, consumer, plan)
        ensures plan.requiredSeparation >= MII.EdgeSeparation(dfg, target, edge)
      {
        TransportTakes(target, ii, edge, ready, producer, consumer, plan);
      }
    } else {
      var here := NodePlacement(0, TileCoord(0, 0), 0);
      OneCycleIsLegal(target, ii, edge, ready, here, here);
      assert !NeverFaster(dfg, target, ii, edge, ready);
    }
  }

  // ----- The lower bound -----

  // Every edge's required separation is kept between the issue times of its ends.
  ghost predicate KeepsSeparations(s: Staged) {
    forall edge :: edge in s.dfg.edges && edge.id in s.dependences ==> Separated(s, edge)
  }

  ghost predicate Separated(s: Staged, edge: TargetEdge)
    requires edge.id in s.dependences
  {
    s.IssueTime(edge.dst) + edge.distance * s.ii >= s.IssueTime(edge.src) + s.dependences[edge.id].requiredSeparation
  }

  ghost function IssueTimesOf(s: Staged): map<nat, int> {
    map n | n in s.dfg.NodeIds() :: s.IssueTime(n) as int
  }

  lemma EdgeStaged(s: Staged, edge: TargetEdge)
    requires s.dfg.Valid(s.target) && LegalMaps(s.dfg, s.target, s.ii, s.placements, s.dependences)
    requires edge in s.dfg.edges && Prompt(s.dfg, edge)
    ensures edge.id in s.dependences && s.dependences[edge.id].requiredSeparation >= MII.EdgeSeparation(s.dfg, s.target, edge)
  {
    hide ClaimsDisjoint, NodeLegal, PlanLegal, NodeMatchesTarget;
    assert DependenceLegal(s.dfg, s.target, s.ii, edge, s.placements, s.dependences[edge.id]) by {
      var i :| 0 <= i < |s.dfg.edges| && s.dfg.edges[i] == edge;
      assert edge.id in s.dfg.EdgeIds();
    }
    if edge.kind != MemoryEdge {
      TransportTakes(s.target, s.ii, edge, s.dfg.Node(edge.src).outputReady.value, s.placements[edge.src],
                     s.placements[edge.dst], s.dependences[edge.id].transport.value);
    }
  }

  lemma IdsOfEnds(dfg: TargetDFG, target: TargetModel, edge: TargetEdge)
    requires dfg.Valid(target) && edge in dfg.edges
    ensures edge.src in dfg.NodeIds() && edge.dst in dfg.NodeIds()
  {
    assert dfg.HasNode(edge.src) && dfg.HasNode(edge.dst);
  }

  lemma MemoryStaged(s: Staged, edge: TargetEdge)
    requires s.dfg.Valid(s.target) && LegalMaps(s.dfg, s.target, s.ii, s.placements, s.dependences)
    requires edge in s.dfg.edges && edge.kind == MemoryEdge
    ensures edge.id in s.dependences && s.dependences[edge.id].requiredSeparation == MII.EdgeSeparation(s.dfg, s.target, edge)
  {
    hide ClaimsDisjoint, NodeLegal, PlanLegal, NodeMatchesTarget;
    assert DependenceLegal(s.dfg, s.target, s.ii, edge, s.placements, s.dependences[edge.id]) by {
      var i :| 0 <= i < |s.dfg.edges| && s.dfg.edges[i] == edge;
      assert edge.id in s.dfg.EdgeIds();
    }
  }

  lemma TimesAre(s: Staged, edge: TargetEdge)
    requires edge.src in s.dfg.NodeIds() && edge.dst in s.dfg.NodeIds()
    ensures edge.src in IssueTimesOf(s) && IssueTimesOf(s)[edge.src] == s.IssueTime(edge.src)
    ensures edge.dst in IssueTimesOf(s) && IssueTimesOf(s)[edge.dst] == s.IssueTime(edge.dst)
  {
    hide TargetDFG.NodeIds, Staged.IssueTime;
  }

  /** What the analysis asks of a memory edge is exactly what a staged mapping keeps for it. */
  lemma MemoryMetExactly(s: Staged, edge: TargetEdge)
    requires s.dfg.Valid(s.target) && LegalMaps(s.dfg, s.target, s.ii, s.placements, s.dependences)
    requires edge in s.dfg.edges && edge.kind == MemoryEdge
    ensures edge.id in s.dependences
    ensures MII.EdgeMet(s.dfg, s.target, s.ii, IssueTimesOf(s), edge) <==> Separated(s, edge)
  {
    hide TargetDFG.Valid, LegalMaps, TargetDFG.NodeIds, IssueTimesOf, Staged.IssueTime, MII.EdgeSeparation;
    MemoryStaged(s, edge);
    IdsOfEnds(s.dfg, s.target, edge);
    TimesAre(s, edge);
  }

  // The issue times of a staged legal mapping are issue times for the analysis.
  lemma StagedIsSchedule(s: Staged)
    requires s.dfg.Valid(s.target) && LegalMaps(s.dfg, s.target, s.ii, s.placements, s.dependences)
    requires KeepsSeparations(s) && forall edge :: edge in s.dfg.edges ==> Prompt(s.dfg, edge)
    ensures MII.IssueTimes(s.dfg, s.target, s.ii, IssueTimesOf(s))
  {
    hide LegalMaps, TargetDFG.Valid, MII.EdgeSeparation, TargetDFG.NodeIds, Prompt, Staged.IssueTime;
    forall edge | edge in s.dfg.edges
      ensures MII.EdgeMet(s.dfg, s.target, s.ii, IssueTimesOf(s), edge)
    {
      EdgeStaged(s, edge);
      IdsOfEnds(s.dfg, s.target, edge);
      assert Separated(s, edge);
    }
  }

  lemma BelowNothingFits(dfg: TargetDFG, target: TargetModel, bound: nat, ii: nat)
    requires MII.IsBound(dfg, target, bound) && 0 < ii && ResourceFits(dfg, target, ii) && MII.Schedulable(dfg, target, ii)
    ensures ii >= bound
  {
    hide ResourceFits, MII.Schedulable;
  }

  /** So its II is never below the bound. */
  lemma StagedRespectsMII(s: Staged, bound: nat)
    requires s.target.Valid() && s.dfg.Valid(s.target) && LegalMaps(s.dfg, s.target, s.ii, s.placements, s.dependences)
    requires KeepsSeparations(s) && forall edge :: edge in s.dfg.edges ==> Prompt(s.dfg, edge)
    requires MII.IsBound(s.dfg, s.target, bound)
    ensures MII.IssueTimes(s.dfg, s.target, s.ii, IssueTimesOf(s)) && s.ii >= bound
  {
    assert 0 < s.ii;
    StagedIsSchedule(s);
    hide LegalMaps, TargetModel.Valid, TargetDFG.Valid, ResourceFits, MII.IssueTimes, IssueTimesOf, KeepsSeparations, Prompt,
         MII.IsBound;
    LegalMapsFit(s.dfg, s.target, s.ii, s.placements, s.dependences);
    assert MII.Schedulable(s.dfg, s.target, s.ii);
    BelowNothingFits(s.dfg, s.target, bound, s.ii);
  }

  // ----- Where it is no lower bound -----

  // A result counted as two cycles that a transport may pick up at once, needed again an iteration later.
  function SlowTile(): TargetModel {
    TargetModel("slow", 1, 1, [], map["add" := Operation(FUClass, 1, Some(2), Some(0))], {"add"}, map[], true, 1, 1, 1, 1)
  }

  function Accumulator(): TargetDFG {
    TargetDFG("slow", [TargetNode(0, "add", FUClass, 1, Some(2), Some(0))], [TargetEdge(0, 0, 0, 1, DataEdge, RAW)])
  }

  function Accumulating(): Staged {
    Staged(Accumulator(), SlowTile(), 1, map[0 := NodePlacement(0, TileCoord(0, 0), 0)],
           map[0 := MappedDependence(0, DataEdge, 1, Some(OneCycle(Accumulator().edges[0], TileCoord(0, 0), 0)))], map[0 := 0])
  }

  lemma AccumulatorParts()
    ensures Accumulator().NodeIds() == {0} && Accumulator().EdgeIds() == {0} && Accumulator().UniqueIds()
    ensures Accumulator().HasNode(0) && Accumulator().Node(0) == Accumulator().nodes[0]
    ensures Accumulator().HasEdge(0) && Accumulator().Edge(0) == Accumulator().edges[0]
  {
    var dfg := Accumulator();
    assert dfg.nodes[0].id == 0 && dfg.edges[0].id == 0;
    dfg.NodeUnique(dfg.nodes[0]);
    dfg.EdgeUnique(dfg.edges[0]);
  }

  lemma AccumulatorIsValid()
    ensures SlowTile().Valid() && Accumulator().Valid(SlowTile())
  {
    AccumulatorParts();
    assert SlowTile().TileSupports(TileCoord(0, 0), "add");
    assert NodeMatchesTarget(Accumulator().nodes[0], SlowTile());
  }

  lemma AccumulatingIsLegal()
    ensures var s := Accumulating(); LegalMaps(s.dfg, s.target, s.ii, s.placements, s.dependences) && KeepsSeparations(s)
  {
    var s := Accumulating();
    AccumulatorParts();
    var here, edge := NodePlacement(0, TileCoord(0, 0), 0), Accumulator().edges[0];
    OneCycleIsLegal(s.target, 1, edge, 0, here, here);
    assert NodeLegal(s.target, 1, s.dfg.nodes[0], here);
    hide PlanLegal;
    assert DependenceLegal(s.dfg, s.target, 1, edge, s.placements, s.dependences[0]);
    forall o1, o2, r |
      && r in ClaimOf(s.dfg, s.target, 1, s.placements, s.dependences, o1)
      && r in ClaimOf(s.dfg, s.target, 1, s.placements, s.dependences, o2)
      ensures o1 == o2
    {
      AccumulatingClaims(o1, r);
      AccumulatingClaims(o2, r);
    }
  }

  lemma AccumulatingClaims(o: Owner, r: Resource)
    requires var s := Accumulating(); r in ClaimOf(s.dfg, s.target, s.ii, s.placements, s.dependences, o)
    ensures o == Owner(NodeOwner, 0)
  {
    AccumulatorParts();
    var s := Accumulating();
    var actions := OneCycle(Accumulator().edges[0], TileCoord(0, 0), 0).actions;
    var ctx := ContextFor(s.target, 1, DataEdge, s.placements[0]);
    assert actions[..0] == [] && LinksOf(ctx, []) == [];
    assert LinksOf(ctx, actions) == [];
  }

  lemma AccumulatorTakesTwo()
    ensures !MII.Schedulable(Accumulator(), SlowTile(), 1) && MII.Schedulable(Accumulator(), SlowTile(), 2)
  {
    AccumulatorParts();
    var edge := Accumulator().edges[0];
    assert MII.EdgeSeparation(Accumulator(), SlowTile(), edge) == 2;
    forall times: map<nat, int>
      ensures !MII.IssueTimes(Accumulator(), SlowTile(), 1, times)
    {
      assert !MII.EdgeMet(Accumulator(), SlowTile(), 1, times, edge);
    }
    assert MII.IssueTimes(Accumulator(), SlowTile(), 2, map[0 := 0]);
  }

  lemma AccumulatorFits()
    ensures ResourceFits(Accumulator(), SlowTile(), 1)
    ensures MII.TotalSeparation(Accumulator(), SlowTile(), SortBy(EdgeId, Accumulator().edges)) <= U32_MAX
  {
    var s := Accumulating();
    assert s.ii == 1 && s.dfg == Accumulator() && s.target == SlowTile();
    AccumulatorSeparation();
    hide *;
    AccumulatorIsValid();
    AccumulatingIsLegal();
    LegalMapsFit(s.dfg, s.target, s.ii, s.placements, s.dependences);
  }

  lemma AccumulatorSeparation()
    ensures MII.TotalSeparation(Accumulator(), SlowTile(), SortBy(EdgeId, Accumulator().edges)) == 2
  {
    AccumulatorParts();
    var edge := Accumulator().edges[0];
    assert SortBy(EdgeId, [edge]) == [edge];
    assert [edge][..0] == [];
    assert MII.TotalSeparation(Accumulator(), SlowTile(), []) == 0;
    assert MII.EdgeSeparation(Accumulator(), SlowTile(), edge) == 2;
  }

  lemma MustSucceed(result: MII.MIIResult)
    requires result.status in {MII.Success, MII.UnschedulableZeroDistanceCycle, MII.InternalError}
    requires result.status == MII.UnschedulableZeroDistanceCycle ==>
      forall ii: nat :: !MII.Schedulable(Accumulator(), SlowTile(), ii)
    requires result.status == MII.InternalError ==>
      MII.NeverFits(Accumulator(), SlowTile()) ||
      MII.TotalSeparation(Accumulator(), SlowTile(), SortBy(EdgeId, Accumulator().edges)) > U32_MAX
    requires result.status == MII.Success ==>
      && result.mii == MII.Max(result.resourceMII, result.recurrenceMII)
      && forall ii: nat :: 1 <= ii ==> (MII.Schedulable(Accumulator(), SlowTile(), ii) <==> ii >= result.recurrenceMII)
    ensures result.status == MII.Success && result.mii > 1
  {
    hide Accumulator, SlowTile, SortBy, ResourceFits, MII.Schedulable, MII.TotalSeparation;
    AccumulatorTakesTwo();
    AccumulatorFits();
  }

  lemma AccumulatingIs()
    ensures var s := Accumulating();
      s.dfg == Accumulator() && s.target == SlowTile() && s.ii == 1 && s.dfg.targetName == s.target.name
  {
  }

  /** A legal mapping at an II of 1, its stages keeping every separation, below the bound the analysis gives. */
  method BoundExceeded() returns (result: MII.MIIResult)
    ensures var s := Accumulating();
      && s.target.Valid() && s.dfg.Valid(s.target)
      && LegalMaps(s.dfg, s.target, s.ii, s.placements, s.dependences) && KeepsSeparations(s)
      && result.status == MII.Success && s.ii < result.mii
  {
    hide *;
    AccumulatingIs();
    AccumulatorIsValid();
    AccumulatingIsLegal();
    result := MII.Analyze(Accumulator(), SlowTile());
    MustSucceed(result);
  }
}
