/** Parallel groups: each bead's level is the length of its longest dependency
    chain inside the plan, and beads of one level may run together. */
module ParallelGroups {
  import opened Beads
  import opened Graphs
  import opened OrderedMaps

  // ---- Chains ----------------------------------------------------------------

  /** No walk from `v` has more than `n` edges. */
  ghost predicate AtMost<Id(!new)>(g: Digraph<Id>, v: Id, n: int) {
    forall p :: Walk(g, p) && p[0] == v ==> |p| <= n + 1
  }

  /** The longest walk from `v` has exactly `n` edges. */
  ghost predicate IsLevel<Id(!new)>(g: Digraph<Id>, v: Id, n: int) {
    AtMost(g, v, n) && exists p :: Walk(g, p) && p[0] == v && |p| == n + 1
  }

  lemma LevelIsUnique<Id(!new)>(g: Digraph<Id>, v: Id, m: int, n: int)
    requires IsLevel(g, v, m) && IsLevel(g, v, n)
    ensures m == n && n >= 0
  {
    var p :| Walk(g, p) && p[0] == v && |p| == m + 1;
    var q :| Walk(g, q) && q[0] == v && |q| == n + 1;
  }

  lemma LevelDrops<Id(!new)>(g: Digraph<Id>, v: Id, d: Id, m: int, n: int)
    requires Edge(g, v, d) && IsLevel(g, v, m) && IsLevel(g, d, n)
    ensures n < m
  {
    var q :| Walk(g, q) && q[0] == d && |q| == n + 1;
    var p := [v] + q;
    assert p[1..] == q;
    assert Walk(g, p) && p[0] == v;
  }

  /** One more than the largest level among the successors, or zero without any. */
  lemma LevelFromSuccessors<Id(!new)>(g: Digraph<Id>, v: Id, top: int)
    requires top >= -1 && forall d :: Edge(g, v, d) ==> AtMost(g, d, top)
    requires top == -1 ==> forall d :: !Edge(g, v, d)
    requires top >= 0 ==> exists d :: Edge(g, v, d) && IsLevel(g, d, top)
    ensures IsLevel(g, v, top + 1)
  {
    forall p | Walk(g, p) && p[0] == v ensures |p| <= top + 2 {
      if |p| > 1 {
        assert Edge(g, v, p[1]) && Walk(g, p[1..]);
        assert AtMost(g, p[1], top);
        assert |p[1..]| <= top + 1;
      }
    }
    if top == -1 {
      assert Walk(g, [v]);
    } else {
      var d :| Edge(g, v, d) && IsLevel(g, d, top);
      var q :| Walk(g, q) && q[0] == d && |q| == top + 1;
      var p := [v] + q;
      assert p[1..] == q;
      assert Walk(g, p) && p[0] == v && |p| == top + 2;
    }
  }

  /** A non-empty chain leads from `u` to `v`. */
  ghost predicate Above<Id(!new)>(g: Digraph<Id>, u: Id, v: Id) {
    exists w :: Edge(g, u, w) && Reach(g, w, v)
  }

  lemma AboveStep<Id(!new)>(g: Digraph<Id>, u: Id, v: Id, d: Id)
    requires Above(g, u, v) && Edge(g, v, d)
    ensures Above(g, u, d)
  {
    var w :| Edge(g, u, w) && Reach(g, w, v);
    ReachEdge(g, v, d);
    ReachTransitive(g, w, v, d);
  }

  lemma AboveSelf<Id(!new)>(g: Digraph<Id>, v: Id, d: Id)
    requires Edge(g, v, d)
    ensures Above(g, v, d)
  {
    ReachSelf(g, d);
  }

  lemma NeverAboveItself<Id(!new)>(g: Digraph<Id>, v: Id)
    requires Acyclic(g)
    ensures !Above(g, v, v)
  {
    OnCycleViaSuccessor(g, v);
  }

  // ---- Levels ----------------------------------------------------------------

  /** Later beads replace earlier ones with the same id. */
  function BeadMap<Id(!new)>(beads: seq<SimulatedBead<Id>>): map<Id, SimulatedBead<Id>> {
    if beads == [] then map[]
    else
      var last := beads[|beads| - 1];
      BeadMap(beads[..|beads| - 1])[last.id := last]
  }

  lemma {:induction false} BeadMapKeys<Id(!new)>(beads: seq<SimulatedBead<Id>>, x: Id)
    ensures x in BeadMap(beads) <==> x in IdsOf(beads)
    ensures x in BeadMap(beads) ==> BeadMap(beads)[x] in beads && BeadMap(beads)[x].id == x
  {
    if beads != [] {
      BeadMapKeys(beads[..|beads| - 1], x);
      assert beads == beads[..|beads| - 1] + [beads[|beads| - 1]];
      assert IdsOf(beads) == IdsOf(beads[..|beads| - 1]) + [beads[|beads| - 1].id];
    }
  }

  /** The dependency graph the levels are computed on. */
  function LevelGraph<Id(!new)>(beads: seq<SimulatedBead<Id>>): Digraph<Id> {
    map v | v in BeadMap(beads) :: InSet(IdSet(beads), BeadMap(beads)[v].deps)
  }

  /** On distinct ids this is the graph that the execution order uses. */
  lemma LevelGraphIsDepGraph<Id(!new)>(beads: seq<SimulatedBead<Id>>, a: Id, b: Id)
    requires Distinct(IdsOf(beads))
    ensures Edge(LevelGraph(beads), a, b) <==> Edge(DepGraph(beads), a, b)
  {
    BeadMapKeys(beads, a);
    DepGraphEdge(beads, a, b);
    forall i | 0 <= i < |beads| ensures beads[i].id in IdsOf(beads) {
      assert IdsOf(beads)[i] == beads[i].id;
    }
    if a in BeadMap(beads) {
      var bead := BeadMap(beads)[a];
      InSetMember(IdSet(beads), bead.deps, b);
      var k :| 0 <= k < |beads| && beads[k] == bead;
      forall i | 0 <= i < |beads| && beads[i].id == a ensures beads[i] == bead {
        assert IdsOf(beads)[i] == IdsOf(beads)[k];
      }
    }
  }

  ghost predicate CorrectLevels<Id(!new)>(g: Digraph<Id>, levels: map<Id, nat>) {
    forall x {:trigger levels[x]} :: x in levels ==> IsLevel(g, x, levels[x])
  }

  /** The maps that the recursive level computation closes over. */
  class LevelSearch<Id(==,!new)> {
    const idSet: set<Id>
    const beadMap: map<Id, SimulatedBead<Id>>
    ghost const g: Digraph<Id>
    var levels: OrderedMap<Id, nat>
    var visiting: set<Id>

    constructor (beads: seq<SimulatedBead<Id>>)
      ensures idSet == IdSet(beads) && beadMap == BeadMap(beads) && g == LevelGraph(beads)
      ensures levels == Empty() && visiting == {} && Consistent()
    {
      idSet, beadMap, g := IdSet(beads), BeadMap(beads), LevelGraph(beads);
      levels, visiting := Empty(), {};
      new;
      forall x ensures x in idSet <==> x in beadMap {
        BeadMapKeys(beads, x);
      }
      forall x, d | x in beadMap ensures Edge(g, x, d) <==> d in beadMap[x].deps && d in idSet {
        InSetMember(idSet, beadMap[x].deps, d);
        assert g[x] == InSet(idSet, beadMap[x].deps);
      }
    }

    ghost predicate Setup() {
      && (forall x :: x in idSet <==> x in beadMap)
      && (forall x, d {:trigger Edge(g, x, d)} :: x in beadMap ==>
          (Edge(g, x, d) <==> d in beadMap[x].deps && d in idSet))
    }

    ghost predicate Consistent()
      reads this
    {
      && Setup() && Valid(levels) && visiting <= idSet
      && (forall x :: x in levels.entries ==> x in idSet)
      && (Acyclic(g) ==> CorrectLevels(g, levels.entries))
    }

    method SetLevel(id: Id, level: nat)
      requires Consistent() && id in idSet && (Acyclic(g) ==> IsLevel(g, id, level))
      modifies this`levels
      ensures Consistent() && levels == Set(old(levels), id, level)
    {
      SetKeepsValid(levels, id, level);
      levels := Set(levels, id, level);
    }

    method GetLevel(id: Id) returns (r: nat)
      requires Consistent() && id in idSet
      requires forall v :: v in visiting ==> Above(g, v, id)
      modifies this
      ensures Consistent() && visiting == old(visiting)
      ensures id in levels.entries && (Acyclic(g) ==> IsLevel(g, id, r))
      ensures forall x :: x in old(levels.entries) ==> x in levels.entries
      decreases |idSet - visiting|, 2
    {
      if id in levels.entries {
        return levels.entries[id];
      }
      var bead := beadMap[id];
      if |bead.deps| == 0 {
        LevelFromSuccessors(g, id, -1);
        SetLevel(id, 0);
        return 0;
      }
      if id in visiting {
        if Acyclic(g) {
          NeverAboveItself(g, id);
        }
        SetLevel(id, 0);
        return 0;
      }
      var top := LevelOfDeps(id, bead);
      SetLevel(id, top + 1);
      r := top + 1;
    }

    /** The largest level among the dependencies, or -1 without any in the plan. */
    method LevelOfDeps(id: Id, bead: SimulatedBead<Id>) returns (maxDepLevel: int)
      requires Consistent() && id in idSet && id !in visiting && bead == beadMap[id]
      requires forall v :: v in visiting ==> Above(g, v, id)
      modifies this
      ensures Consistent() && visiting == old(visiting)
      ensures maxDepLevel >= -1 && (Acyclic(g) ==> IsLevel(g, id, maxDepLevel + 1))
      ensures forall x :: x in old(levels.entries) ==> x in levels.entries
      decreases |idSet - visiting|, 1
    {
      ghost var outer := visiting;
      visiting := visiting + {id};
      assert idSet - outer == (idSet - visiting) + {id};
      maxDepLevel := -1;
      for k := 0 to |bead.deps|
        invariant Consistent() && visiting == outer + {id}
        invariant maxDepLevel >= -1 && (Acyclic(g) ==> TopOf(bead.deps[..k], maxDepLevel))
        invariant forall x :: x in old(levels.entries) ==> x in levels.entries
      {
        assert bead.deps[..k + 1] == bead.deps[..k] + [bead.deps[k]];
        maxDepLevel := VisitDep(id, bead.deps[k], maxDepLevel, bead.deps[..k], outer);
      }
      visiting := visiting - {id};
      assert bead.deps[..|bead.deps|] == bead.deps;
      assert visiting == outer;
      if Acyclic(g) {
        TopGivesLevel(id, maxDepLevel);
      }
    }

    /** One round of the loop over the dependencies of `id`. */
    method VisitDep(id: Id, dep: Id, top: int, ghost seen: seq<Id>, ghost outer: set<Id>) returns (maxDepLevel: int)
      requires Consistent() && id in idSet && dep in beadMap[id].deps
      requires visiting == outer + {id} && forall v :: v in outer ==> Above(g, v, id)
      requires top >= -1 && (Acyclic(g) ==> TopOf(seen, top))
      modifies this
      ensures Consistent() && visiting == old(visiting)
      ensures maxDepLevel >= -1 && (Acyclic(g) ==> TopOf(seen + [dep], maxDepLevel))
      ensures forall x :: x in old(levels.entries) ==> x in levels.entries
      decreases |idSet - visiting|, 3
    {
      maxDepLevel := top;
      if dep in idSet {
        assert Edge(g, id, dep);
        forall v | v in visiting ensures Above(g, v, dep) {
          if v == id { AboveSelf(g, id, dep); } else { AboveStep(g, v, id, dep); }
        }
        var level := GetLevel(dep);
        if Acyclic(g) {
          TopWith(seen, top, dep, level);
        }
        maxDepLevel := if level > top then level else top;
      }
    }

    /** `top` is the largest level among the listed beads of the plan. */
    ghost predicate TopOf(list: seq<Id>, top: int) {
      && (forall d :: d in list && d in idSet ==> AtMost(g, d, top))
      && (if top == -1 then forall d :: d in list ==> d !in idSet
          else exists d :: d in list && d in idSet && IsLevel(g, d, top))
    }

    lemma TopWith(list: seq<Id>, top: int, dep: Id, level: nat)
      requires top >= -1 && TopOf(list, top) && dep in idSet && IsLevel(g, dep, level)
      ensures TopOf(list + [dep], if level > top then level else top)
    {
      assert dep in list + [dep];
      if top >= 0 && level <= top {
        var d :| d in list && d in idSet && IsLevel(g, d, top);
        assert d in list + [dep];
      }
    }

    lemma TopGivesLevel(id: Id, top: int)
      requires Setup() && id in idSet && top >= -1 && TopOf(beadMap[id].deps, top)
      ensures IsLevel(g, id, top + 1)
    {
      LevelFromSuccessors(g, id, top);
    }
  }

  // ---- Groups ----------------------------------------------------------------

  /** Every bead is in exactly one position of exactly one group. */
  ghost predicate Partition<Id(!new)>(ids: set<Id>, groups: seq<seq<Id>>) {
    && (forall x :: x in ids <==> exists i :: 0 <= i < |groups| && x in groups[i])
    && (forall i :: 0 <= i < |groups| ==> Distinct(groups[i]))
    && (forall i, j, x {:trigger x in groups[i], x in groups[j]} ::
          0 <= i < |groups| && 0 <= j < |groups| && x in groups[i] && x in groups[j] ==> i == j)
  }

  /** Group `l` holds exactly the beads whose longest dependency chain has `l` edges. */
  ghost predicate GroupedByLevel<Id(!new)>(g: Digraph<Id>, ids: set<Id>, groups: seq<seq<Id>>) {
    forall i, x {:trigger x in groups[i]} :: 0 <= i < |groups| ==> (x in groups[i] <==> x in ids && IsLevel(g, x, i))
  }

  /** A layering runs every dependency in an earlier layer. */
  ghost predicate RespectsDeps<Id(!new)>(g: Digraph<Id>, ids: set<Id>, layers: seq<seq<Id>>) {
    && (forall x :: x in ids ==> exists i :: 0 <= i < |layers| && x in layers[i])
    && (forall i, j, x, d {:trigger Edge(g, x, d), layers[i], layers[j]} ::
          0 <= i < |layers| && 0 <= j < |layers| && x in layers[i] && d in layers[j] && Edge(g, x, d) ==> j < i)
  }

  method LargestLevel<Id(==,!new)>(levels: OrderedMap<Id, nat>) returns (maxLevel: nat, ghost arg: Id)
    requires Valid(levels) && |levels.keys| > 0
    ensures arg in levels.entries && levels.entries[arg] == maxLevel
    ensures forall x :: x in levels.entries ==> levels.entries[x] <= maxLevel
  {
    assert levels.keys[0] in levels.keys;
    maxLevel, arg := levels.entries[levels.keys[0]], levels.keys[0];
    for k := 0 to |levels.keys|
      invariant arg in levels.entries && levels.entries[arg] == maxLevel
      invariant forall x :: x in levels.keys[..k] ==> x in levels.entries && levels.entries[x] <= maxLevel
    {
      assert levels.keys[k] in levels.keys;
      assert levels.keys[..k + 1] == levels.keys[..k] + [levels.keys[k]];
      if levels.entries[levels.keys[k]] > maxLevel {
        maxLevel, arg := levels.entries[levels.keys[k]], levels.keys[k];
      }
    }
    assert levels.keys[..|levels.keys|] == levels.keys;
  }

  /** The groups hold the first beads that were given a level, each in the group of its level. */
  ghost predicate InGroups<Id(!new)>(levels: map<Id, nat>, done: seq<Id>, groups: seq<seq<Id>>) {
    && (forall i, x {:trigger x in groups[i]} :: 0 <= i < |groups| ==>
        (x in groups[i] <==> x in done && x in levels && levels[x] == i))
    && (forall i {:trigger groups[i]} :: 0 <= i < |groups| ==> Distinct(groups[i]))
  }

  lemma SortNext<Id(!new)>(levels: map<Id, nat>, done: seq<Id>, groups: seq<seq<Id>>, id: Id)
    requires InGroups(levels, done, groups) && id in levels && id !in done && levels[id] < |groups|
    ensures InGroups(levels, done + [id], groups[levels[id] := groups[levels[id]] + [id]])
  {
    var level := levels[id];
    var after := groups[level := groups[level] + [id]];
    forall i | 0 <= i < |after| ensures Distinct(after[i]) {
      assert Distinct(groups[i]) && id !in groups[i];
    }
  }

  method GroupByLevel<Id(==,!new)>(levels: OrderedMap<Id, nat>) returns (groups: seq<seq<Id>>)
    requires Valid(levels) && |levels.keys| > 0
    ensures |groups| > 0 && groups[|groups| - 1] != []
    ensures InGroups(levels.entries, levels.keys, groups)
    ensures forall x :: x in levels.entries ==> levels.entries[x] < |groups|
  {
    UniqueIsDistinct(levels.keys);
    var maxLevel, arg := LargestLevel(levels);
    groups := seq(maxLevel + 1, _ => []);
    for k := 0 to |levels.keys|
      invariant |groups| == maxLevel + 1 && InGroups(levels.entries, levels.keys[..k], groups)
    {
      var id := levels.keys[k];
      assert id in levels.keys && id !in levels.keys[..k];
      assert levels.keys[..k + 1] == levels.keys[..k] + [id];
      SortNext(levels.entries, levels.keys[..k], groups, id);
      var level := levels.entries[id];
      groups := groups[level := groups[level] + [id]];
    }
    assert levels.keys[..|levels.keys|] == levels.keys;
    assert arg in groups[maxLevel];
  }

  method ComputeLevels<Id(==,!new)>(beads: seq<SimulatedBead<Id>>) returns (levels: OrderedMap<Id, nat>)
    ensures Valid(levels) && forall x :: x in IdSet(beads) <==> x in levels.entries
    ensures Acyclic(LevelGraph(beads)) ==> CorrectLevels(LevelGraph(beads), levels.entries)
  {
    var search := new LevelSearch(beads);
    for k := 0 to |beads|
      invariant search.Consistent() && search.visiting == {}
      invariant forall x :: x in IdsOf(beads[..k]) ==> x in search.levels.entries
    {
      assert IdsOf(beads)[k] == beads[k].id;
      assert IdsOf(beads[..k + 1]) == IdsOf(beads[..k]) + [beads[k].id];
      var _ := search.GetLevel(beads[k].id);
    }
    assert beads[..|beads|] == beads;
    levels := search.levels;
  }

  method ComputeParallelGroups<Id(==,!new)>(beads: seq<SimulatedBead<Id>>) returns (groups: seq<seq<Id>>)
    ensures Partition(IdSet(beads), groups)
    ensures Acyclic(LevelGraph(beads)) ==> GroupedByLevel(LevelGraph(beads), IdSet(beads), groups)
    ensures CanRun(beads) ==> GroupedByLevel(DepGraph(beads), IdSet(beads), groups) && MinimalWaves(beads, groups)
  {
    groups := LevelGroups(beads);
    if CanRun(beads) {
      SameLevels(beads, groups);
      LevelsAreMinimalWaves(beads, groups);
    }
  }

  method LevelGroups<Id(==,!new)>(beads: seq<SimulatedBead<Id>>) returns (groups: seq<seq<Id>>)
    ensures Partition(IdSet(beads), groups)
    ensures Acyclic(LevelGraph(beads)) ==> GroupedByLevel(LevelGraph(beads), IdSet(beads), groups)
    ensures |groups| > 0 ==> groups[|groups| - 1] != []
  {
    if |beads| == 0 {
      return [];
    }
    var levels := ComputeLevels(beads);
    assert IdsOf(beads)[0] in levels.entries && IdsOf(beads)[0] in levels.keys;
    groups := GroupByLevel(levels);
    LevelsPartition(beads, levels, groups);
  }

  lemma LevelsPartition<Id(!new)>(beads: seq<SimulatedBead<Id>>, table: OrderedMap<Id, nat>, groups: seq<seq<Id>>)
    requires Valid(table) && forall x :: x in IdSet(beads) <==> x in table.entries
    requires Acyclic(LevelGraph(beads)) ==> CorrectLevels(LevelGraph(beads), table.entries)
    requires InGroups(table.entries, table.keys, groups)
    requires forall x :: x in table.entries ==> table.entries[x] < |groups|
    ensures Partition(IdSet(beads), groups)
    ensures Acyclic(LevelGraph(beads)) ==> GroupedByLevel(LevelGraph(beads), IdSet(beads), groups)
  {
    var levels := table.entries;
    assert forall i, x {:trigger x in groups[i]} ::
        0 <= i < |groups| ==> (x in groups[i] <==> x in levels && levels[x] == i);
    forall x ensures x in IdSet(beads) <==> exists i :: 0 <= i < |groups| && x in groups[i] {
      if x in IdSet(beads) {
        assert x in groups[levels[x]];
      }
      if i :| 0 <= i < |groups| && x in groups[i] {
        assert x in levels;
      }
    }
    forall i, j, x | 0 <= i < |groups| && 0 <= j < |groups| && x in groups[i] && x in groups[j] ensures i == j {
      assert i == levels[x] && j == levels[x];
    }
    if Acyclic(LevelGraph(beads)) {
      forall i, x | 0 <= i < |groups| ensures x in groups[i] <==>
          x in IdSet(beads) && IsLevel(LevelGraph(beads), x, i) {
        if x in levels && IsLevel(LevelGraph(beads), x, i) {
          LevelIsUnique(LevelGraph(beads), x, i, levels[x]);
        }
      }
    }
  }

  // ---- What the groups mean --------------------------------------------------

  /** A dependency of a bead is in the plan and so in some group. */
  ghost predicate StaysInside<Id(!new)>(g: Digraph<Id>, ids: set<Id>) {
    forall x, d {:trigger Edge(g, x, d)} :: x in ids && Edge(g, x, d) ==> d in ids
  }

  lemma {:induction false} SomeBeadPerLevel<Id(!new)>(g: Digraph<Id>, ids: set<Id>, v: Id, n: nat, i: nat)
      returns (x: Id)
    requires StaysInside(g, ids) && v in ids && IsLevel(g, v, n) && i <= n
    requires forall x :: x in ids ==> exists m :: IsLevel(g, x, m)
    ensures x in ids && IsLevel(g, x, i)
    decreases n
  {
    if i == n {
      x := v;
    } else {
      var d, m := DeepestSuccessor(g, ids, v, n);
      x := SomeBeadPerLevel(g, ids, d, m, i);
    }
  }

  lemma DeepestSuccessor<Id(!new)>(g: Digraph<Id>, ids: set<Id>, v: Id, n: nat) returns (d: Id, m: nat)
    requires StaysInside(g, ids) && v in ids && IsLevel(g, v, n) && n > 0
    requires forall x :: x in ids ==> exists m :: IsLevel(g, x, m)
    ensures d in ids && Edge(g, v, d) && IsLevel(g, d, m) && m == n - 1
  {
    var p :| Walk(g, p) && p[0] == v && |p| == n + 1;
    d := p[1];
    assert Edge(g, v, d) && Walk(g, p[1..]);
    var k :| IsLevel(g, d, k);
    LevelDrops(g, v, d, n, k);
    assert |p[1..]| <= k + 1;
    m := k;
  }

  /** No group is empty. */
  lemma GroupsAreInhabited<Id(!new)>(g: Digraph<Id>, ids: set<Id>, groups: seq<seq<Id>>)
    requires StaysInside(g, ids) && Partition(ids, groups) && GroupedByLevel(g, ids, groups)
    requires |groups| > 0 ==> groups[|groups| - 1] != []
    ensures forall i :: 0 <= i < |groups| ==> groups[i] != []
  {
    if |groups| > 0 {
      var top := |groups| - 1;
      var v := groups[top][0];
      assert v in groups[top];
      forall x | x in ids ensures exists m :: IsLevel(g, x, m) {
        var i :| 0 <= i < |groups| && x in groups[i];
        assert IsLevel(g, x, i);
      }
      forall i | 0 <= i < |groups| ensures groups[i] != [] {
        var x := SomeBeadPerLevel(g, ids, v, top, i);
        assert x in groups[i];
      }
    }
  }

  lemma {:induction false} WalkDescends<Id(!new)>(g: Digraph<Id>, ids: set<Id>, layers: seq<seq<Id>>, p: seq<Id>,
      i: nat)
    requires RespectsDeps(g, ids, layers) && StaysInside(g, ids)
    requires Walk(g, p) && p[0] in ids && i < |layers| && p[0] in layers[i]
    ensures |p| <= i + 1
    ensures |p| > 1 ==> forall j :: 0 <= j < |layers| && p[|p| - 1] in layers[j] ==> j < i
  {
    if |p| > 1 {
      assert Edge(g, p[0], p[1]) && p[1] in ids;
      var k :| 0 <= k < |layers| && p[1] in layers[k];
      WalkDescends(g, ids, layers, p[1..], k);
    }
  }

  /** Groups by level respect the dependencies. */
  lemma GroupsRespectDeps<Id(!new)>(g: Digraph<Id>, ids: set<Id>, groups: seq<seq<Id>>)
    requires Partition(ids, groups) && GroupedByLevel(g, ids, groups)
    ensures RespectsDeps(g, ids, groups)
  {
    forall i, j, x, d | 0 <= i < |groups| && 0 <= j < |groups| && x in groups[i] && d in groups[j] && Edge(g, x, d)
      ensures j < i
    {
      LevelDrops(g, x, d, i, j);
    }
  }

  /** No two beads of one group are linked by a dependency path. */
  lemma GroupMembersAreIndependent<Id(!new)>(g: Digraph<Id>, ids: set<Id>, groups: seq<seq<Id>>, i: nat, x: Id, y: Id)
    requires StaysInside(g, ids) && Partition(ids, groups) && GroupedByLevel(g, ids, groups)
    requires i < |groups| && x in groups[i] && y in groups[i] && x != y
    ensures !Reach(g, x, y)
  {
    if Reach(g, x, y) {
      var p :| WalkFromTo(g, p, x, y);
      GroupsRespectDeps(g, ids, groups);
      WalkDescends(g, ids, groups, p, i);
      assert false;
    }
  }

  /** No layering that respects the dependencies has fewer layers. */
  lemma GroupsAreFewest<Id(!new)>(g: Digraph<Id>, ids: set<Id>, groups: seq<seq<Id>>, layers: seq<seq<Id>>)
    requires StaysInside(g, ids) && Partition(ids, groups) && GroupedByLevel(g, ids, groups)
    requires |groups| > 0 ==> groups[|groups| - 1] != []
    requires RespectsDeps(g, ids, layers)
    ensures |groups| <= |layers|
  {
    if |groups| > 0 {
      var v := groups[|groups| - 1][0];
      assert v in groups[|groups| - 1];
      var p :| Walk(g, p) && p[0] == v && |p| == |groups|;
      var i :| 0 <= i < |layers| && v in layers[i];
      WalkDescends(g, ids, layers, p, i);
    }
  }

  // ---- The groups of a plan ------------------------------------------------------------------

  lemma DepGraphStaysInside<Id(!new)>(beads: seq<SimulatedBead<Id>>)
    ensures StaysInside(DepGraph(beads), IdSet(beads))
  {
    forall x, d | x in IdSet(beads) && Edge(DepGraph(beads), x, d) ensures d in IdSet(beads) {
      DepGraphEdge(beads, x, d);
    }
  }

  /** What the groups of a plan promise: no group is empty, every dependency is in an earlier
      group, no path links two beads of a group, and no other layering that respects the
      dependencies is shorter. */
  ghost predicate MinimalWaves<Id(!new)>(beads: seq<SimulatedBead<Id>>, groups: seq<seq<Id>>) {
    var g, ids := DepGraph(beads), IdSet(beads);
    && (forall i {:trigger groups[i]} :: 0 <= i < |groups| ==> groups[i] != [])
    && RespectsDeps(g, ids, groups)
    && (forall i, x, y {:trigger Linked(g, groups, i, x, y)} :: !Linked(g, groups, i, x, y))
    && (forall layers {:trigger RespectsDeps(g, ids, layers)} :: RespectsDeps(g, ids, layers) ==> |groups| <= |layers|)
  }

  /** A path leads from one bead of group `i` to another. */
  ghost predicate Linked<Id(!new)>(g: Digraph<Id>, groups: seq<seq<Id>>, i: int, x: Id, y: Id) {
    0 <= i < |groups| && x in groups[i] && y in groups[i] && x != y && Reach(g, x, y)
  }

  lemma LevelsAreMinimalWaves<Id(!new)>(beads: seq<SimulatedBead<Id>>, groups: seq<seq<Id>>)
    requires Partition(IdSet(beads), groups) && GroupedByLevel(DepGraph(beads), IdSet(beads), groups)
    requires |groups| > 0 ==> groups[|groups| - 1] != []
    ensures MinimalWaves(beads, groups)
  {
    var g, ids := DepGraph(beads), IdSet(beads);
    DepGraphStaysInside(beads);
    GroupsAreInhabited(g, ids, groups);
    GroupsRespectDeps(g, ids, groups);
    forall i, x, y ensures !Linked(g, groups, i, x, y) {
      if 0 <= i < |groups| && x in groups[i] && y in groups[i] && x != y {
        GroupMembersAreIndependent(g, ids, groups, i, x, y);
      }
    }
    forall layers | RespectsDeps(g, ids, layers) ensures |groups| <= |layers| {
      GroupsAreFewest(g, ids, groups, layers);
    }
  }

  // ---- On distinct ids the two graphs are one --------------------------------------------------

  lemma SameLevel<Id(!new)>(g: Digraph<Id>, h: Digraph<Id>, v: Id, n: int)
    requires forall p :: Walk(g, p) <==> Walk(h, p)
    ensures IsLevel(g, v, n) ==> IsLevel(h, v, n)
  {
  }

  /** Distinct ids, and no cycle among the dependencies. */
  ghost predicate CanRun<Id(!new)>(beads: seq<SimulatedBead<Id>>) {
    Distinct(IdsOf(beads)) && Acyclic(DepGraph(beads))
  }

  lemma SameLevels<Id(!new)>(beads: seq<SimulatedBead<Id>>, groups: seq<seq<Id>>)
    requires CanRun(beads)
    requires Acyclic(LevelGraph(beads)) ==> GroupedByLevel(LevelGraph(beads), IdSet(beads), groups)
    ensures GroupedByLevel(DepGraph(beads), IdSet(beads), groups)
  {
    var g, h := LevelGraph(beads), DepGraph(beads);
    forall a, b ensures Edge(g, a, b) <==> Edge(h, a, b) {
      LevelGraphIsDepGraph(beads, a, b);
    }
    forall p ensures Walk(g, p) <==> Walk(h, p) {
      SameWalks(g, h, p);
    }
    forall v ensures OnCycle(g, v) <==> OnCycle(h, v) {
      forall p ensures WalkFromTo(g, p, v, v) <==> WalkFromTo(h, p, v, v) {}
    }
    forall v, n ensures IsLevel(g, v, n) <==> IsLevel(h, v, n) {
      SameLevel(g, h, v, n);
      SameLevel(h, g, v, n);
    }
  }
}
