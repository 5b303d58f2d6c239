/** Simulated beads and the dependency graph among the beads of one plan. */
module Beads {
  import opened Graphs
  import opened Sorting

  datatype SimulatedBead<Id> = SimulatedBead(id: Id, title: Text, deps: seq<Id>, files: seq<Text>)

  function IdsOf<Id(!new)>(beads: seq<SimulatedBead<Id>>): seq<Id> {
    seq(|beads|, i requires 0 <= i < |beads| => beads[i].id)
  }

  function IdSet<Id(!new)>(beads: seq<SimulatedBead<Id>>): set<Id> {
    Elements(IdsOf(beads))
  }

  /** The dependencies inside the plan; the others are ignored. */
  function InSet<Id(!new)>(ids: set<Id>, deps: seq<Id>): seq<Id> {
    if deps == [] then []
    else
      var last := deps[|deps| - 1];
      InSet(ids, deps[..|deps| - 1]) + (if last in ids then [last] else [])
  }

  lemma {:induction false} InSetMember<Id(!new)>(ids: set<Id>, deps: seq<Id>, d: Id)
    ensures d in InSet(ids, deps) <==> d in deps && d in ids
  {
    if deps != [] {
      InSetMember(ids, deps[..|deps| - 1], d);
      assert deps == deps[..|deps| - 1] + [deps[|deps| - 1]];
    }
  }

  /** What the beads with id `v` list, duplicates of the id included. */
  function DepsOf<Id(!new)>(ids: set<Id>, beads: seq<SimulatedBead<Id>>, v: Id): seq<Id> {
    if beads == [] then []
    else
      var last := beads[|beads| - 1];
      DepsOf(ids, beads[..|beads| - 1], v) + (if last.id == v then InSet(ids, last.deps) else [])
  }

  /** An edge leads from a bead to a bead of the plan that it depends on. */
  function DepGraph<Id(!new)>(beads: seq<SimulatedBead<Id>>): Digraph<Id> {
    map v | v in IdSet(beads) :: DepsOf(IdSet(beads), beads, v)
  }

  ghost predicate DependsOn<Id(!new)>(beads: seq<SimulatedBead<Id>>, a: Id, b: Id) {
    b in IdsOf(beads) && exists i :: 0 <= i < |beads| && beads[i].id == a && b in beads[i].deps
  }

  lemma {:induction false} DepsOfMember<Id(!new)>(ids: set<Id>, beads: seq<SimulatedBead<Id>>, a: Id, b: Id)
    ensures b in DepsOf(ids, beads, a) <==>
            b in ids && exists i :: 0 <= i < |beads| && beads[i].id == a && b in beads[i].deps
  {
    if beads != [] {
      var front, last := beads[..|beads| - 1], beads[|beads| - 1];
      DepsOfMember(ids, front, a, b);
      InSetMember(ids, last.deps, b);
      if i :| 0 <= i < |front| && front[i].id == a && b in front[i].deps {
        assert beads[i] == front[i];
      }
    }
  }

  lemma DepGraphEdge<Id(!new)>(beads: seq<SimulatedBead<Id>>, a: Id, b: Id)
    ensures Edge(DepGraph(beads), a, b) <==> DependsOn(beads, a, b)
  {
    DepsOfMember(IdSet(beads), beads, a, b);
    if i :| 0 <= i < |beads| && beads[i].id == a && b in beads[i].deps {
      assert IdsOf(beads)[i] == a;
    }
  }
}
