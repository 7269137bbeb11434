// A run that raises the II without exhausting the search.

module MapperExamples {
  import opened Wrappers
  import opened Mesh
  import opened Target
  import opened Resources
  import opened Reservation
  import opened Mapping
  import opened Ordering
  import opened ResourceBound
  import opened SearchBudget
  import opened FairShares
  import opened Mapper
  import opened MapperRun
  import RouteSearch
  import RouteStates
  import MII

  // Two independent additions, on an array of two tiles.
  function TwoTiles(): TargetModel {
    TargetModel("pair", 1, 2, [], map["add" := Operation(FUClass, 1, Some(1), Some(1))], {"add"}, map[], true, 1, 1, 1, 1)
  }

  function TwoNodes(): TargetDFG {
    TargetDFG("pair", [TargetNode(0, "add", FUClass, 1, Some(1), Some(1)), TargetNode(1, "add", FUClass, 1, Some(1), Some(1))],
              [])
  }

  function LeftPlacement(): NodePlacement {
    NodePlacement(0, TileCoord(0, 0), 0)
  }

  function RightPlacement(): NodePlacement {
    NodePlacement(1, TileCoord(0, 1), 0)
  }

  function SideBySide(): ModuloMapping {
    ModuloMapping("pair", 1, [LeftPlacement(), RightPlacement()], [])
  }

  // Two candidate attempts for two IIs, and plenty of everything else.
  function TightOptions(checked: bool): MapperOptions {
    MapperOptions(0, 2, SearchLimits(2, 100, 100), RouteSearch.RouteOptions(1000, 1000, true), checked)
  }

  lemma NodesOfTwo()
    ensures TwoNodes().NodeIds() == {0, 1} && TwoNodes().EdgeIds() == {} && TwoNodes().UniqueIds()
    ensures TwoNodes().HasNode(0) && TwoNodes().Node(0) == TwoNodes().nodes[0]
    ensures TwoNodes().HasNode(1) && TwoNodes().Node(1) == TwoNodes().nodes[1]
  {
    var dfg := TwoNodes();
    assert dfg.nodes[0].id == 0 && dfg.nodes[1].id == 1;
    dfg.NodeUnique(dfg.nodes[0]);
    dfg.NodeUnique(dfg.nodes[1]);
  }

  lemma TilesOfTwo()
    ensures forall t :: TwoTiles().TileSupports(t, "add") <==> t == TileCoord(0, 0) || t == TileCoord(0, 1)
    ensures |SupportingTiles(TwoTiles(), "add")| == 2
  {
    assert SupportingTiles(TwoTiles(), "add") == {TileCoord(0, 0), TileCoord(0, 1)};
  }

  lemma TwoAreValid()
    ensures TwoTiles().Valid() && TwoNodes().Valid(TwoTiles())
  {
    NodesOfTwo();
    var target := TwoTiles();
    assert target.TileSupports(TileCoord(0, 0), "add");
    forall node | node in TwoNodes().nodes
      ensures NodeMatchesTarget(node, target)
    {
      assert node.operation == "add";
    }
  }

  // There is a legal mapping with an II of 1.
  lemma SideBySideIsLegal()
    ensures Legal(TwoNodes(), TwoTiles(), SideBySide())
  {
    var dfg, target, placements := TwoNodes(), TwoTiles(), map[0 := LeftPlacement(), 1 := RightPlacement()];
    NodesOfTwo();
    TilesOfTwo();
    assert NodeLegal(target, 1, dfg.nodes[0], LeftPlacement()) && NodeLegal(target, 1, dfg.nodes[1], RightPlacement());
    assert Lists(NodeKey, [LeftPlacement(), RightPlacement()], placements);
    assert Lists(EdgeKey, [], map[]);
    forall o1, o2, r | r in ClaimOf(dfg, target, 1, placements, map[], o1) && r in ClaimOf(dfg, target, 1, placements, map[], o2)
      ensures o1 == o2
    {
      ClaimsOfTwo(placements, o1, r);
      ClaimsOfTwo(placements, o2, r);
    }
    assert LegalMaps(dfg, target, 1, placements, map[]);
    assert LegalAs(dfg, target, SideBySide(), placements, map[]);
  }

  lemma ClaimsOfTwo(placements: map<nat, NodePlacement>, o: Owner, r: Resource)
    requires placements == map[0 := LeftPlacement(), 1 := RightPlacement()]
    requires r in ClaimOf(TwoNodes(), TwoTiles(), 1, placements, map[], o)
    ensures o.kind == NodeOwner && o.id in placements && r == FU(placements[o.id].tile, 0)
  {
    NodesOfTwo();
  }

  lemma TwoFit()
    ensures ResourceFits(TwoNodes(), TwoTiles(), 1) && MII.Schedulable(TwoNodes(), TwoTiles(), 1)
  {
    assert SideBySide().ii == 1;
    TwoAreSchedulable();
    hide *;
    TwoAreValid();
    SideBySideIsLegal();
    LegalFits(TwoNodes(), TwoTiles(), SideBySide());
  }

  lemma TwoAreSchedulable()
    ensures MII.Schedulable(TwoNodes(), TwoTiles(), 1)
  {
    NodesOfTwo();
    assert TwoNodes().edges == [];
    hide TwoNodes, TwoTiles, TargetDFG.NodeIds, TargetDFG.EdgeIds;
    assert MII.IssueTimes(TwoNodes(), TwoTiles(), 1, map[0 := 0, 1 := 0]);
  }

  lemma TwoStartAtOne(bound: nat)
    requires MII.IsBound(TwoNodes(), TwoTiles(), bound)
    ensures bound == 1
  {
    TwoFit();
    hide ResourceFits, MII.Schedulable, TwoNodes, TwoTiles;
    var resourceMII, recurrenceMII :|
      MII.ResourceThreshold(TwoNodes(), TwoTiles(), resourceMII) &&
      MII.ScheduleThreshold(TwoNodes(), TwoTiles(), recurrenceMII) && bound == MII.Max(resourceMII, recurrenceMII);
    assert resourceMII <= 1 && recurrenceMII <= 1;
  }

  lemma TwoAreAnalysed()
    ensures !MII.AnalysisFails(TwoNodes(), TwoTiles())
  {
    assert SortBy(EdgeId, TwoNodes().edges) == [];
    hide SortBy, ResourceFits, MII.Schedulable, Legal, TwoNodes, TwoTiles, SideBySide;
    TwoFit();
    SomethingBelow();
  }

  lemma SomethingBelow()
    ensures !MII.NoLegalMapping(TwoNodes(), TwoTiles(), 1)
  {
    assert SideBySide().ii == 1;
    hide Legal, TwoNodes, TwoTiles, SideBySide;
    SideBySideIsLegal();
  }

  lemma CostsOfTwo(ii: nat)
    requires ii == 1 || ii == 2
    ensures LeastTries(TwoNodes(), TwoTiles(), ii) == 2 * ii
    ensures MostCost(TwoNodes(), TwoTiles(), ii) == if ii == 1 then Expense(6, 6, 0) else Expense(20, 20, 0)
  {
    TilesOfTwo();
    hide SupportingTiles;
    var target, nodes := TwoTiles(), TwoNodes().nodes;
    assert nodes[1..][1..] == [];
    assert MostTiles(target, nodes[1..]) == 2 && FewestTiles(target, nodes[1..]) == 2;
    assert MostTiles(target, nodes) == 2 && FewestTiles(target, nodes) == 2;
    hide MostTiles, FewestTiles;
    var width := 2 * ii;
    assert TreeCost(width, 0, 1) == Times(width, OneTry(Expense(0, 0, 0), 0)) == Expense(width, width, 0);
    assert TreeCost(width, 0, 2) == Times(width, OneTry(Expense(width, width, 0), 0));
  }

  lemma TwoAreRoomy(checked: bool, ii: nat)
    requires ii == 1 || ii == 2
    ensures !TightRouting(TightOptions(checked).routeOptions, TwoTiles(), ii) && !LateRouting(TwoNodes(), TwoTiles(), ii)
  {
    assert RouteStates.StateCount(TwoTiles(), ii) == 2 * ii;
  }

  // A share that does not reach to the second node ends the search at that II.
  lemma RunsShort(checked: bool, a: Attempt)
    requires Justified(TwoNodes(), TwoTiles(), TightOptions(checked), a) && (a.ii == 1 || a.ii == 2)
    requires a.limits.nodeCandidateAttempts == a.before.nodeCandidateAttempts + 1
    requires a.limits.backtracks >= a.before.backtracks + 20
    ensures a.outcome == PerIIBudgetExceeded && a.after.nodeCandidateAttempts == a.before.nodeCandidateAttempts + 1
    ensures a.after.backtracks <= a.before.backtracks + 20
  {
    CostsOfTwo(a.ii);
    TwoAreRoomy(checked, a.ii);
    assert |TwoNodes().nodes| == 2;
    hide TightRouting, LateRouting, FullyExhausted, MostCost, LeastTries, TwoNodes, TwoTiles;
  }

  lemma TooFewAttempts(checked: bool, trace: seq<Attempt>)
    requires Account(TwoNodes(), TwoTiles(), TightOptions(checked), 1, 2, trace) && Finished(1, 2, trace)
    ensures |trace| == 2 && trace[0].ii == 1 && trace[1].ii == 2 && Verdict(trace) == GlobalBudgetExceeded
    ensures trace[0].outcome == PerIIBudgetExceeded && trace[0].after.nodeCandidateAttempts == 1
  {
    hide Justified, TwoNodes, TwoTiles;
    assert trace != [];
    assert trace[0].ii == 1 && Shares(trace[0].limits, TightOptions(checked).budget, trace[0].before, 2);
    RunsShort(checked, trace[0]);
    assert |trace| > 1;
    assert trace[1].ii == 2 && Shares(trace[1].limits, TightOptions(checked).budget, trace[1].before, 1);
    RunsShort(checked, trace[1]);
    assert trace[|trace| - 1].ii == |trace| <= 2;
    assert ShareSpent(trace) by {
      assert trace[0].outcome == PerIIBudgetExceeded;
    }
  }

  /**
   * The II is raised although the search was not exhausted: with two candidate attempts for the IIs 1 and 2, the share of the
   * first is spent once one of the two nodes is placed, and the mapper leaves an II at which a mapping exists.
   */
  method ShareSpentMovesOn(checked: bool) returns (result: MapperResult, ghost trace: seq<Attempt>)
    ensures Legal(TwoNodes(), TwoTiles(), SideBySide()) && SideBySide().ii == 1
    ensures |trace| == 2 && trace[0].ii == 1 && trace[1].ii == 2
    ensures trace[0].outcome == PerIIBudgetExceeded && trace[0].after.nodeCandidateAttempts == 1
    ensures result.status == GlobalBudgetExceeded
  {
    TwoAreValid();
    SideBySideIsLegal();
    var options := TightOptions(checked);
    hide Legal, FullyExhausted, MII.IsBound, MII.NothingBelow, MII.AnalysisFails, Justified;
    result, trace := Map(TwoNodes(), TwoTiles(), options);
    TwoAreAnalysed();
    TwoStartAtOne(result.startingMII);
    TooFewAttempts(checked, trace);
  }
}
