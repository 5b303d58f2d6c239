/** The bead graph and the wave scheduler decide in two different ways whether a
    plan has a cycle; on the same beads they agree. */
module CycleAgreement {
  import opened Graphs
  import opened Options
  import opened Sorting
  import Beads
  import BeadGraph
  import ExecutionOrder

  type Bead = Beads.SimulatedBead<Text>

  /** The rows, with the rows of explicit dependencies, have the same beads in the same order
      and say the same about who depends on whom, whether inline or explicitly. */
  ghost predicate SamePlan(beads: seq<Bead>, rows: seq<BeadGraph.BeadRow>, deps: seq<BeadGraph.DepRow>) {
    && BeadGraph.IdsOf(rows) == Beads.IdsOf(beads)
    && forall a, b {:trigger Beads.DependsOn(beads, a, b)} :: BeadGraph.DependsOn(rows, deps, a, b) <==>
        Beads.DependsOn(beads, a, b)
  }

  /** Rows that list the dependencies of the beads inline are the same plan, and so are rows
      that list none, beside explicit rows for all of them. */
  lemma InlineRowsAreSamePlan(beads: seq<Bead>, rows: seq<BeadGraph.BeadRow>, deps: seq<BeadGraph.DepRow>)
    requires BeadGraph.IdsOf(rows) == Beads.IdsOf(beads)
    requires forall i {:trigger rows[i]} :: 0 <= i < |rows| ==>
               if deps == [] then rows[i].dependencies == Some(beads[i].deps) else rows[i].dependencies == None
    requires deps != [] ==> forall a, b {:trigger BeadGraph.ListsExplicitly(deps, a, b)} ::
               BeadGraph.ListsExplicitly(deps, a, b) <==>
                   exists i :: 0 <= i < |beads| && beads[i].id == a && b in beads[i].deps
    ensures SamePlan(beads, rows, deps)
  {
    assert |rows| == |beads|;
    forall i | 0 <= i < |rows| ensures rows[i].node.id == beads[i].id {
      assert BeadGraph.IdsOf(rows)[i] == Beads.IdsOf(beads)[i];
    }
    forall a, b ensures BeadGraph.DependsOn(rows, deps, a, b) <==> Beads.DependsOn(beads, a, b) {
      if i :| 0 <= i < |beads| && beads[i].id == a && b in beads[i].deps {
        assert rows[i].node.id == a && BeadGraph.IdsOf(rows)[i] == a;
      }
    }
  }

  lemma NoListedCycleMeansAcyclic(g: Digraph<Text>, ids: seq<Text>, cycles: seq<seq<Text>>)
    requires BeadGraph.ListsCycles(g, ids, cycles)
    requires forall a, b :: Edge(g, a, b) ==> a in ids
    ensures cycles == [] <==> Acyclic(g)
  {
    if cycles != [] {
      assert BeadGraph.IsCycle(g, cycles[0]);
      assert BeadGraph.Listed(cycles, cycles[0][0]);
    }
    if v :| OnCycle(g, v) {
      var p :| WalkFromTo(g, p, v, v) && |p| >= 2;
      assert Edge(g, p[0], p[1]);
      assert BeadGraph.Listed(cycles, v);
    }
  }

  lemma SameAcyclicity(g: Digraph<Text>, h: Digraph<Text>)
    requires forall a, b :: Edge(g, a, b) <==> Edge(h, a, b)
    ensures Acyclic(g) ==> Acyclic(h)
  {
    forall v ensures OnCycle(h, v) ==> OnCycle(g, v) {
      if p :| WalkFromTo(h, p, v, v) && |p| >= 2 {
        SameWalks(g, h, p);
        assert WalkFromTo(g, p, v, v);
      }
    }
  }

  /** The scheduler orders a plan exactly when its ids are distinct and the bead graph of the
      same plan, with inline and explicit dependencies in any mixture, reports no cycles. */
  lemma OrderExistsIffNoCyclesReported(beads: seq<Bead>, rows: seq<BeadGraph.BeadRow>, deps: seq<BeadGraph.DepRow>,
      adjacency: Digraph<Text>, cycles: seq<seq<Text>>, r: ExecutionOrder.OrderResult<Text>)
    requires SamePlan(beads, rows, deps)
    requires forall a, b :: Edge(adjacency, a, b) <==> BeadGraph.DependsOn(rows, deps, a, b)
    requires BeadGraph.ListsCycles(adjacency, BeadGraph.IdsOf(rows), cycles)
    requires ExecutionOrder.OrderVerdict(beads, r)
    ensures r.Ordered? <==> Distinct(Beads.IdsOf(beads)) && cycles == []
  {
    var g := Beads.DepGraph(beads);
    forall a, b ensures Edge(adjacency, a, b) <==> Edge(g, a, b) {
      Beads.DepGraphEdge(beads, a, b);
    }
    SameAcyclicity(adjacency, g);
    SameAcyclicity(g, adjacency);
    NoListedCycleMeansAcyclic(adjacency, BeadGraph.IdsOf(rows), cycles);
  }

  /** What the lemma asks for is what the two promise: run on the same plan, they agree. */
  method DecideBothWays(beads: seq<Bead>, listJson: seq<Option<BeadGraph.BeadRow>>,
      depJson: seq<Option<BeadGraph.DepRow>>)
    returns (ordered: bool, cyclic: bool)
    requires SamePlan(beads, Present(listJson), Present(depJson)) && Distinct(Beads.IdsOf(beads))
    ensures ordered != cyclic
  {
    var order := ExecutionOrder.ComputeExecutionOrder(beads);
    var graph, adjacency := BeadGraph.BuildBeadGraph(listJson, depJson);
    OrderExistsIffNoCyclesReported(beads, Present(listJson), Present(depJson), adjacency, graph.cycles, order);
    return order.Ordered?, graph.cycles != [];
  }
}
