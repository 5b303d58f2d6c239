/** Kahn's algorithm: an execution order with dependencies first, or the beads
    that cannot be ordered. */
module ExecutionOrder {
  import opened Beads
  import opened Graphs
  import opened OrderedMaps
  import opened Sorting

  datatype OrderResult<Id> = Ordered(order: seq<Id>) | CycleDetected(remaining: seq<Id>)

  // ---- Counting unfinished dependencies ------------------------------------

  function CountOutside<Id(!new)>(s: seq<Id>, done: set<Id>): nat {
    if s == [] then 0 else CountOutside(s[..|s| - 1], done) + (if s[|s| - 1] in done then 0 else 1)
  }

  lemma {:induction false} CountOutsideOneMore<Id(!new)>(s: seq<Id>, done: set<Id>, u: Id)
    requires u !in done
    ensures CountOutside(s, done + {u}) == CountOutside(s, done) - multiset(s)[u]
  {
    if s != [] {
      var front := s[..|s| - 1];
      assert s == front + [s[|s| - 1]];
      CountOutsideOneMore(front, done, u);
    }
  }

  lemma {:induction false} CountOutsideZero<Id(!new)>(s: seq<Id>, done: set<Id>)
    ensures CountOutside(s, done) == 0 <==> forall d :: d in s ==> d in done
  {
    if s != [] {
      var front := s[..|s| - 1];
      assert s == front + [s[|s| - 1]];
      CountOutsideZero(front, done);
    }
  }

  // ---- Building the degree and dependent tables ------------------------------

  /** `dependents[u]` lists `v` as often as `listed[v]` lists `u`. */
  ghost predicate Mirrors<Id(!new)>(dependents: map<Id, seq<Id>>, listed: map<Id, seq<Id>>, u: Id, v: Id) {
    u in dependents && multiset(dependents[u])[v] == if v in listed then multiset(listed[v])[u] else 0
  }

  /** The degrees count what each bead lists, and the dependents mirror it. */
  ghost predicate TablesMatch<Id(!new)>(ids: set<Id>, degree: map<Id, int>, dependents: map<Id, seq<Id>>,
      listed: map<Id, seq<Id>>) {
    && (forall v :: v in ids ==> v in degree && v in dependents && v in listed)
    && (forall v :: v in listed || v in degree ==> v in ids)
    && (forall v {:trigger degree[v]} :: v in ids ==> degree[v] == |listed[v]|)
    && (forall u, v {:trigger Mirrors(dependents, listed, u, v)} :: u in ids ==> Mirrors(dependents, listed, u, v))
  }

  /** The tables match, kept as one fact; `assert Open(0)` makes it available. */
  ghost predicate Tables<Id(!new)>(ids: set<Id>, degree: OrderedMap<Id, int>, dependents: map<Id, seq<Id>>,
      listed: map<Id, seq<Id>>) {
    forall key {:trigger Open(key)} :: Open(key) ==>
        Valid(degree) && TablesMatch(ids, degree.entries, dependents, listed)
  }

  ghost predicate Open(key: int) { true }

  lemma TablesAddEdge<Id(!new)>(ids: set<Id>, degree: map<Id, int>, dependents: map<Id, seq<Id>>,
      listed: map<Id, seq<Id>>, b: Id, d: Id)
    requires TablesMatch(ids, degree, dependents, listed) && b in ids && d in ids
    ensures TablesMatch(ids, degree[b := degree[b] + 1], dependents[d := dependents[d] + [b]],
            listed[b := listed[b] + [d]])
  {
    var dependents', listed' := dependents[d := dependents[d] + [b]], listed[b := listed[b] + [d]];
    forall u, v | u in ids ensures Mirrors(dependents', listed', u, v) {
      assert Mirrors(dependents, listed, u, v);
    }
  }

  ghost predicate ListsDeps<Id(!new)>(ids: set<Id>, beads: seq<SimulatedBead<Id>>, listed: map<Id, seq<Id>>) {
    forall v {:trigger listed[v]} {:trigger v in ids} :: v in ids ==> v in listed && listed[v] == DepsOf(ids, beads, v)
  }

  method EmptyTables<Id(==,!new)>(beads: seq<SimulatedBead<Id>>)
      returns (degree: OrderedMap<Id, int>, dependents: map<Id, seq<Id>>)
    ensures Valid(degree)
    ensures forall v :: (v in IdSet(beads) <==> v in degree.entries) && (v in IdSet(beads) <==> v in dependents)
    ensures forall v :: v in dependents && v in degree.entries ==> degree.entries[v] == 0 && dependents[v] == []
  {
    degree, dependents := Empty(), map[];
    for k := 0 to |beads|
      invariant Valid(degree)
      invariant forall v ::
                  (v in IdsOf(beads[..k]) <==> v in degree.entries) && (v in IdsOf(beads[..k]) <==> v in dependents)
      invariant forall v :: v in dependents && v in degree.entries ==> degree.entries[v] == 0 && dependents[v] == []
    {
      assert IdsOf(beads[..k + 1]) == IdsOf(beads[..k]) + [beads[k].id];
      SetKeepsValid(degree, beads[k].id, 0);
      degree := Set(degree, beads[k].id, 0);
      dependents := dependents[beads[k].id := []];
    }
    assert beads[..|beads|] == beads;
  }

  lemma BeadIsListed<Id(!new)>(beads: seq<SimulatedBead<Id>>, k: nat)
    requires k < |beads|
    ensures beads[k].id in IdSet(beads)
  {
    assert IdsOf(beads)[k] == beads[k].id;
  }

  lemma ListsDepsStep<Id(!new)>(ids: set<Id>, beads: seq<SimulatedBead<Id>>, k: nat, before: map<Id, seq<Id>>,
      after: map<Id, seq<Id>>)
    requires k < |beads| && ListsDeps(ids, beads[..k], before)
    requires Extended(ids, before, after, beads[k].id, InSet(ids, beads[k].deps))
    ensures ListsDeps(ids, beads[..k + 1], after)
  {
    assert beads[..k + 1][..k] == beads[..k];
    forall v | v in ids ensures v in after && after[v] == DepsOf(ids, beads[..k + 1], v) {
      assert v in before && v in after && after[v] == if v == beads[k].id then before[v] + InSet(ids, beads[k].deps)
          else before[v];
    }
  }

  lemma NothingAdded<Id(!new)>(ids: set<Id>, listed: map<Id, seq<Id>>, b: Id)
    requires forall v :: v in ids ==> v in listed
    ensures Extended(ids, listed, listed, b, [])
  {
    assert b in listed ==> listed[b] + [] == listed[b];
  }

  method BuildTables<Id(==,!new)>(beads: seq<SimulatedBead<Id>>, ids: set<Id>)
    returns (degree: OrderedMap<Id, int>, dependents: map<Id, seq<Id>>, ghost listed: map<Id, seq<Id>>)
    requires ids == IdSet(beads)
    ensures Valid(degree) && TablesMatch(ids, degree.entries, dependents, listed) && ListsDeps(ids, beads, listed)
  {
    degree, dependents := EmptyTables(beads);
    listed := map v | v in ids :: [];
    for k := 0 to |beads|
      invariant Valid(degree) && TablesMatch(ids, degree.entries, dependents, listed)
      invariant ListsDeps(ids, beads[..k], listed)
    {
      BeadIsListed(beads, k);
      ghost var before := listed;
      NothingAdded(ids, before, beads[k].id);
      degree, dependents, listed := AddBead(ids, beads[k], degree, dependents, listed);
      ListsDepsStep(ids, beads, k, before, listed);
      assert Open(0);
    }
    assert beads[..|beads|] == beads;
  }

  lemma InSetStep<Id(!new)>(ids: set<Id>, deps: seq<Id>, j: nat)
    requires j < |deps|
    ensures InSet(ids, deps[..j + 1]) == InSet(ids, deps[..j]) + (if deps[j] in ids then [deps[j]] else [])
  {
    assert deps[..j + 1][..j] == deps[..j];
  }

  /** `after` lists what `before` lists, and `more` besides for `b`. */
  ghost predicate Extended<Id(!new)>(ids: set<Id>, before: map<Id, seq<Id>>, after: map<Id, seq<Id>>, b: Id,
      more: seq<Id>) {
    forall v {:trigger after[v]} {:trigger v in ids} :: v in ids ==>
      v in before && v in after && after[v] == if v == b then before[v] + more else before[v]
  }

  lemma ExtendedByOne<Id(!new)>(ids: set<Id>, before: map<Id, seq<Id>>, mid: map<Id, seq<Id>>, after: map<Id, seq<Id>>,
      b: Id, more: seq<Id>, dep: Id)
    requires Extended(ids, before, mid, b, more) && Extended(ids, mid, after, b, [dep])
    ensures Extended(ids, before, after, b, more + [dep])
  {
    forall v | v in ids
      ensures v in before && v in after && after[v] == if v == b then before[v] + (more + [dep]) else before[v]
    {
      assert v in mid && mid[v] == if v == b then before[v] + more else before[v];
    }
  }

  method AddBead<Id(==,!new)>(ids: set<Id>, b: SimulatedBead<Id>, degree0: OrderedMap<Id, int>,
      dependents0: map<Id, seq<Id>>, ghost listed0: map<Id, seq<Id>>)
    returns (degree: OrderedMap<Id, int>, dependents: map<Id, seq<Id>>, ghost listed: map<Id, seq<Id>>)
    requires b.id in ids && Tables(ids, degree0, dependents0, listed0) && Extended(ids, listed0, listed0, b.id, [])
    ensures Tables(ids, degree, dependents, listed)
    ensures Extended(ids, listed0, listed, b.id, InSet(ids, b.deps))
  {
    degree, dependents, listed := degree0, dependents0, listed0;
    for j := 0 to |b.deps|
      invariant Tables(ids, degree, dependents, listed)
      invariant Extended(ids, listed0, listed, b.id, InSet(ids, b.deps[..j]))
    {
      var dep := b.deps[j];
      InSetStep(ids, b.deps, j);
      if dep in ids {
        ghost var before := listed;
        degree, dependents, listed := AddEdge(ids, b.id, dep, degree, dependents, listed);
        ExtendedByOne(ids, listed0, before, listed, b.id, InSet(ids, b.deps[..j]), dep);
      }
    }
    assert b.deps[..|b.deps|] == b.deps;
  }

  method AddEdge<Id(==,!new)>(ghost ids: set<Id>, b: Id, dep: Id, degree0: OrderedMap<Id, int>,
      dependents0: map<Id, seq<Id>>, ghost listed0: map<Id, seq<Id>>)
    returns (degree: OrderedMap<Id, int>, dependents: map<Id, seq<Id>>, ghost listed: map<Id, seq<Id>>)
    requires b in ids && dep in ids && Tables(ids, degree0, dependents0, listed0)
    ensures Tables(ids, degree, dependents, listed) && Extended(ids, listed0, listed, b, [dep])
  {
    assert Open(0);
    SetKeepsValid(degree0, b, degree0.entries[b] + 1);
    TablesAddEdge(ids, degree0.entries, dependents0, listed0, b, dep);
    degree := Set(degree0, b, degree0.entries[b] + 1);
    dependents := dependents0[dep := dependents0[dep] + [b]];
    listed := listed0[b := listed0[b] + [dep]];
  }

  // ---- The main loop ---------------------------------------------------------

  /** The degrees count the dependencies that are not done yet. */
  ghost predicate DegreesCount<Id(!new)>(ids: set<Id>, degree: map<Id, int>, listed: map<Id, seq<Id>>, done: set<Id>) {
    forall v {:trigger degree[v]} {:trigger v in ids} :: v in ids ==>
        v in degree && v in listed && degree[v] == CountOutside(listed[v], done)
  }

  /** The beads without open dependencies are exactly the ordered and queued ones. */
  ghost predicate ReadyAreListed<Id(!new)>(ids: set<Id>, degree: map<Id, int>, started: seq<Id>) {
    && Unique(started)
    && (forall v :: v in started ==> v in ids)
    && (forall v {:trigger degree[v]} {:trigger v in ids} :: v in ids ==>
        v in degree && (degree[v] == 0 <==> v in started))
  }

  /** Every dependency of an ordered bead comes earlier in the order. */
  ghost predicate DepsFirst<Id(!new)>(listed: map<Id, seq<Id>>, order: seq<Id>) {
    forall i {:trigger order[i]} :: 0 <= i < |order| ==>
      order[i] in listed && forall d :: d in listed[order[i]] ==> d in order[..i]
  }

  lemma CountOutsideBound<Id(!new)>(s: seq<Id>, done: set<Id>, u: Id)
    requires u !in done
    ensures multiset(s)[u] <= CountOutside(s, done)
  {
    CountOutsideOneMore(s, done, u);
  }

  lemma TakeCount<Id(!new)>(s: seq<Id>, k: nat, v: Id)
    requires k < |s|
    ensures multiset(s[..k + 1])[v] == multiset(s[..k])[v] + (if s[k] == v then 1 else 0) <= multiset(s)[v]
  {
    assert s[..k + 1] == s[..k] + [s[k]];
    assert s == s[..k + 1] + s[k + 1..];
  }

  /** The degrees after releasing the dependents in `released`. */
  ghost predicate Lowered<Id(!new)>(ids: set<Id>, degree0: map<Id, int>, degree: map<Id, int>, released: multiset<Id>) {
    forall v {:trigger degree[v]} {:trigger v in ids} :: v in ids ==>
      v in degree0 && v in degree && degree[v] == degree0[v] - released[v]
  }

  lemma {:induction false} ReleaseStep<Id(!new)>(ids: set<Id>, degree0: map<Id, int>, before: map<Id, int>,
      after: map<Id, int>,
      list: seq<Id>, k: nat, started: seq<Id>)
    requires k < |list| && list[k] in ids && list[k] in before
    requires Lowered(ids, degree0, before, multiset(list[..k])) && ReadyAreListed(ids, before, started)
    requires after == before[list[k] := before[list[k]] - 1]
    requires list[k] in degree0 && degree0[list[k]] >= multiset(list)[list[k]]
    ensures Lowered(ids, degree0, after, multiset(list[..k + 1]))
    ensures ReadyAreListed(ids, after, if after[list[k]] == 0 then started + [list[k]] else started)
  {
    forall v ensures multiset(list[..k + 1])[v] == multiset(list[..k])[v] + (if list[k] == v then 1 else 0) {
      TakeCount(list, k, v);
    }
    TakeCount(list, k, list[k]);
    assert (started + [list[k]])[..|started|] == started;
  }

  lemma ReleaseEnds<Id(!new)>(ids: set<Id>, degree0: map<Id, int>, degree: map<Id, int>, list: seq<Id>,
      listed: map<Id, seq<Id>>, done: set<Id>, current: Id)
    requires DegreesCount(ids, degree0, listed, done) && current !in done
    requires Releases(ids, listed, list, current)
    requires Lowered(ids, degree0, degree, multiset(list))
    ensures DegreesCount(ids, degree, listed, done + {current})
  {
    forall v | v in ids
      ensures v in degree && v in listed && degree[v] == CountOutside(listed[v], done + {current})
    {
      CountOutsideOneMore(listed[v], done, current);
      assert Releases1(ids, listed, list, current, v);
    }
  }

  /** `list` names each bead as often as the bead lists `current`. */
  ghost predicate Releases<Id(!new)>(ids: set<Id>, listed: map<Id, seq<Id>>, list: seq<Id>, current: Id) {
    forall v {:trigger Releases1(ids, listed, list, current, v)} :: Releases1(ids, listed, list, current, v)
  }

  ghost predicate Releases1<Id(!new)>(ids: set<Id>, listed: map<Id, seq<Id>>, list: seq<Id>, current: Id, v: Id) {
    multiset(list)[v] == if v in ids && v in listed then multiset(listed[v])[current] else 0
  }

  lemma ReleasedIsCounted<Id(!new)>(ids: set<Id>, degree: map<Id, int>, listed: map<Id, seq<Id>>, done: set<Id>,
      list: seq<Id>, current: Id, k: nat)
    requires k < |list| && DegreesCount(ids, degree, listed, done) && current !in done
    requires Releases(ids, listed, list, current)
    ensures list[k] in ids && list[k] in degree && degree[list[k]] >= multiset(list)[list[k]]
  {
    assert list[k] in multiset(list);
    assert Releases1(ids, listed, list, current, list[k]);
    CountOutsideBound(listed[list[k]], done, current);
  }

  /** `current` is done: its dependents have one open dependency less for every
      time they list it, and those with none left join the queue. */
  method ReleaseDependents<Id(==,!new)>(current: Id, list: seq<Id>, degree0: OrderedMap<Id, int>, queue0: seq<Id>,
      ghost ids: set<Id>, ghost listed: map<Id, seq<Id>>, ghost done: set<Id>, ghost ordered: seq<Id>)
    returns (degree: OrderedMap<Id, int>, queue: seq<Id>)
    requires Valid(degree0) && DegreesCount(ids, degree0.entries, listed, done) && current !in done
    requires ReadyAreListed(ids, degree0.entries, ordered + queue0)
    requires Releases(ids, listed, list, current)
    ensures Valid(degree) && DegreesCount(ids, degree.entries, listed, done + {current})
    ensures ReadyAreListed(ids, degree.entries, ordered + queue)
  {
    degree, queue := degree0, queue0;
    for k := 0 to |list|
      invariant Valid(degree) && ReadyAreListed(ids, degree.entries, ordered + queue)
      invariant Lowered(ids, degree0.entries, degree.entries, multiset(list[..k]))
    {
      var dependent := list[k];
      ReleasedIsCounted(ids, degree0.entries, listed, done, list, current, k);
      var newDeg := degree.entries[dependent] - 1;
      SetKeepsValid(degree, dependent, newDeg);
      ReleaseStep(ids, degree0.entries, degree.entries, degree.entries[dependent := newDeg], list, k, ordered + queue);
      degree := Set(degree, dependent, newDeg);
      if newDeg == 0 {
        assert (ordered + queue) + [dependent] == ordered + (queue + [dependent]);
        queue := queue + [dependent];
      }
    }
    assert list[..|list|] == list;
    ReleaseEnds(ids, degree0.entries, degree.entries, list, listed, done, current);
  }

  /** The beads with no dependencies inside the plan, in insertion order. */
  method InitialQueue<Id(==,!new)>(degree: OrderedMap<Id, int>, ghost ids: set<Id>) returns (queue: seq<Id>)
    requires Valid(degree) && forall v :: v in ids <==> v in degree.entries
    ensures ReadyAreListed(ids, degree.entries, queue)
  {
    queue := [];
    for k := 0 to |degree.keys|
      invariant Unique(queue)
      invariant forall v :: v in queue <==> v in degree.keys[..k] && v in degree.entries && degree.entries[v] == 0
    {
      var id := degree.keys[k];
      assert degree.keys[..k + 1] == degree.keys[..k] + [id];
      assert id in degree.keys;
      if degree.entries[id] == 0 {
        UniqueIsDistinct(degree.keys);
        assert id !in degree.keys[..k];
        assert (queue + [id])[..|queue|] == queue;
        queue := queue + [id];
      }
    }
    assert degree.keys[..|degree.keys|] == degree.keys;
  }

  /** The head of the queue has all its dependencies in the order already. */
  lemma HeadIsReady<Id(!new)>(ids: set<Id>, degree: map<Id, int>, listed: map<Id, seq<Id>>, order: seq<Id>,
      queue: seq<Id>)
    requires queue != [] && ReadyAreListed(ids, degree, order + queue)
             && DegreesCount(ids, degree, listed, Elements(order))
    requires DepsFirst(listed, order)
    ensures queue[0] in ids && queue[0] !in order && |order| < |ids|
    ensures DepsFirst(listed, order + [queue[0]])
    ensures (order + [queue[0]]) + queue[1..] == order + queue
  {
    var current, started := queue[0], order + queue;
    UniqueIsDistinct(started);
    assert started[|order|] == current;
    assert current in started && current in ids;
    forall i | 0 <= i < |order| ensures order[i] != current {
      assert started[i] == order[i];
    }
    forall i | 0 <= i < |started| ensures started[i] in ids {
      assert started[i] in started;
    }
    DistinctFits(started, ids);
    CountOutsideZero(listed[current], Elements(order));
    var next := order + [current];
    forall i | 0 <= i < |next| ensures next[i] in listed && forall d :: d in listed[next[i]] ==> d in next[..i] {
      assert next[..i] == order[..i];
      if i < |order| {
        assert next[i] == order[i];
      } else {
        assert order[..i] == order;
      }
    }
    assert [current] + queue[1..] == queue;
  }

  /** When the queue runs dry, exactly the beads whose dependencies are all
      ordered have been ordered. */
  ghost predicate Exhausted<Id(!new)>(ids: set<Id>, listed: map<Id, seq<Id>>, order: seq<Id>) {
    && Unique(order) && DepsFirst(listed, order)
    && (forall v :: v in order ==> v in ids)
    && (forall v {:trigger listed[v]} {:trigger v in order} :: v in ids ==>
          v in listed && (v in order <==> forall d :: d in listed[v] ==> d in order))
  }

  method OrderFromTables<Id(==,!new)>(degree0: OrderedMap<Id, int>, dependents: map<Id, seq<Id>>, ghost ids: set<Id>,
      ghost listed: map<Id, seq<Id>>)
    returns (order: seq<Id>)
    requires Valid(degree0) && TablesMatch(ids, degree0.entries, dependents, listed)
    requires forall v :: v in ids <==> v in degree0.entries
    ensures Exhausted(ids, listed, order)
  {
    var degree := degree0;
    var queue := InitialQueue(degree, ids);
    order := [];
    TablesStart(ids, degree.entries, dependents, listed);
    assert order + queue == queue;
    while queue != []
      invariant Valid(degree) && ReadyAreListed(ids, degree.entries, order + queue)
      invariant DegreesCount(ids, degree.entries, listed, Elements(order)) && DepsFirst(listed, order)
      decreases |ids| - |order|
    {
      var current := queue[0];
      HeadIsReady(ids, degree.entries, listed, order, queue);
      DependentsRelease(ids, degree0.entries, dependents, listed, current);
      ghost var done := Elements(order);
      queue := queue[1..];
      order := order + [current];
      assert Elements(order) == done + {current};
      degree, queue := ReleaseDependents(current, dependents[current], degree, queue, ids, listed, done, order);
    }
    assert order + queue == order;
    forall v | v in ids ensures v in listed && (v in order <==> forall d :: d in listed[v] ==> d in order) {
      CountOutsideZero(listed[v], Elements(order));
    }
  }

  lemma TablesStart<Id(!new)>(ids: set<Id>, degree: map<Id, int>, dependents: map<Id, seq<Id>>,
      listed: map<Id, seq<Id>>)
    requires TablesMatch(ids, degree, dependents, listed)
    ensures DegreesCount(ids, degree, listed, Elements([]))
  {
    forall v | v in ids ensures v in degree && v in listed && degree[v] == CountOutside(listed[v], Elements([])) {
      NothingDoneCountsAll(listed[v], Elements([]));
    }
  }

  lemma {:induction false} NothingDoneCountsAll<Id(!new)>(s: seq<Id>, done: set<Id>)
    requires done == {}
    ensures CountOutside(s, done) == |s|
  {
    if s != [] {
      NothingDoneCountsAll(s[..|s| - 1], done);
    }
  }

  lemma DependentsRelease<Id(!new)>(ids: set<Id>, degree: map<Id, int>, dependents: map<Id, seq<Id>>,
      listed: map<Id, seq<Id>>, current: Id)
    requires TablesMatch(ids, degree, dependents, listed) && current in ids
    ensures current in dependents && Releases(ids, listed, dependents[current], current)
  {
    forall v ensures Releases1(ids, listed, dependents[current], current, v) {
      assert Mirrors(dependents, listed, current, v);
    }
  }

  // ---- What the order means --------------------------------------------------

  /** A permutation of the ids in which every dependency inside the plan comes first. */
  ghost predicate IsExecutionOrder<Id(!new)>(beads: seq<SimulatedBead<Id>>, order: seq<Id>) {
    && multiset(order) == multiset(IdsOf(beads)) && Distinct(order)
    && forall i, d :: 0 <= i < |order| && DependsOn(beads, order[i], d) ==> d in order[..i]
  }

  /** An ordered bead reaches no cycle: along dependencies the position drops. */
  lemma {:induction false} OrderedWalkDescends<Id(!new)>(g: Digraph<Id>, order: seq<Id>, p: seq<Id>, i: nat)
      returns (j: nat)
    requires Walk(g, p) && i < |order| && p[0] == order[i]
    requires forall k, d :: 0 <= k < |order| && Edge(g, order[k], d) ==> d in order[..k]
    ensures j < |order| && p[|p| - 1] == order[j] && j <= i && (|p| > 1 ==> j < i)
  {
    if |p| == 1 {
      j := i;
    } else {
      assert Edge(g, order[i], p[1]);
      var k :| 0 <= k < i && order[k] == p[1];
      j := OrderedWalkDescends(g, order, p[1..], k);
    }
  }

  lemma OrderedReachesNoCycle<Id(!new)>(g: Digraph<Id>, order: seq<Id>, v: Id)
    requires v in order && Distinct(order)
    requires forall k, d :: 0 <= k < |order| && Edge(g, order[k], d) ==> d in order[..k]
    ensures !LeadsToCycle(g, v)
  {
    if LeadsToCycle(g, v) {
      var c :| Reach(g, v, c) && OnCycle(g, c);
      var p :| WalkFromTo(g, p, v, c);
      var i :| 0 <= i < |order| && order[i] == v;
      var j := OrderedWalkDescends(g, order, p, i);
      var q :| WalkFromTo(g, q, c, c) && |q| >= 2;
      var k := OrderedWalkDescends(g, order, q, j);
      assert false;
    }
  }

  /** Beads that are left over reach a cycle, because each waits for another. */
  lemma LeftOverReachesCycle<Id(!new)>(g: Digraph<Id>, left: set<Id>, v: Id)
    requires v in left && EndlessIn(g, left)
    ensures LeadsToCycle(g, v)
  {
    var c := EndlessSetHasCycle(g, left, v);
  }

  /** Kahn's loop orders exactly the beads from which no cycle can be reached. */
  lemma OrderedIffNoCycleAhead<Id(!new)>(beads: seq<SimulatedBead<Id>>, listed: map<Id, seq<Id>>, order: seq<Id>)
    requires ListsDeps(IdSet(beads), beads, listed) && Exhausted(IdSet(beads), listed, order)
    ensures Distinct(order)
    ensures forall i, d :: 0 <= i < |order| && Edge(DepGraph(beads), order[i], d) ==> d in order[..i]
    ensures forall v :: v in order <==> v in IdSet(beads) && !LeadsToCycle(DepGraph(beads), v)
  {
    var g, ids := DepGraph(beads), IdSet(beads);
    UniqueIsDistinct(order);
    forall i, d | 0 <= i < |order| && Edge(g, order[i], d) ensures d in order[..i] {
      assert order[i] in order && order[i] in ids;
      assert d in listed[order[i]];
    }
    var left := ids - Elements(order);
    forall v ensures v in order <==> v in ids && !LeadsToCycle(g, v) {
      if v in order {
        OrderedReachesNoCycle(g, order, v);
      } else if v in ids {
        forall x | x in left ensures HasSuccessorIn(g, left, x) {
          var d :| d in listed[x] && d !in order;
          DepsOfMember(ids, beads, x, d);
          assert Edge(g, x, d);
        }
        LeftOverReachesCycle(g, left, v);
      }
    }
  }

  function Remaining<Id(!new)>(beads: seq<SimulatedBead<Id>>, ordered: set<Id>): seq<Id> {
    if beads == [] then []
    else
      var last := beads[|beads| - 1].id;
      Remaining(beads[..|beads| - 1], ordered) + (if last in ordered then [] else [last])
  }

  lemma {:induction false} RemainingMember<Id(!new)>(beads: seq<SimulatedBead<Id>>, ordered: set<Id>, x: Id)
    ensures x in Remaining(beads, ordered) <==> x in IdsOf(beads) && x !in ordered
  {
    if beads != [] {
      RemainingMember(beads[..|beads| - 1], ordered, x);
      assert IdsOf(beads) == IdsOf(beads[..|beads| - 1]) + [beads[|beads| - 1].id];
    }
  }

  lemma FullOrderIsPermutation<Id(!new)>(beads: seq<SimulatedBead<Id>>, order: seq<Id>)
    requires Distinct(order) && forall v :: v in order ==> v in IdSet(beads)
    ensures |order| <= |beads|
    ensures |order| == |beads| <==> Distinct(IdsOf(beads)) && forall v :: v in IdSet(beads) ==> v in order
    ensures |order| == |beads| ==> multiset(order) == multiset(IdsOf(beads))
  {
    var ids := IdsOf(beads);
    DistinctLength(order);
    ElementsSize(ids);
    SubsetSize(Elements(order), Elements(ids));
    if Distinct(ids) {
      DistinctLength(ids);
      DistinctCounts(ids);
      if forall v :: v in IdSet(beads) ==> v in order {
        assert Elements(order) == Elements(ids);
      }
    }
    if |order| == |beads| {
      DistinctCounts(order);
      DistinctCounts(ids);
      forall v ensures multiset(order)[v] == multiset(ids)[v] {
        assert v in Elements(order) <==> v in Elements(ids);
        assert v in order <==> v in multiset(order);
        assert v in ids <==> v in multiset(ids);
      }
    }
  }

  /** An order exists for a plan exactly when its ids are distinct and its
      dependencies have no cycle; otherwise the beads that reach a cycle are named. */
  ghost predicate OrderVerdict<Id(!new)>(beads: seq<SimulatedBead<Id>>, r: OrderResult<Id>) {
    && (r.Ordered? <==> Distinct(IdsOf(beads)) && Acyclic(DepGraph(beads)))
    && (r.Ordered? ==> IsExecutionOrder(beads, r.order))
    && (r.CycleDetected? ==>
          forall x :: x in r.remaining <==> x in IdsOf(beads) && LeadsToCycle(DepGraph(beads), x))
  }

  method ComputeExecutionOrder<Id(==,!new)>(beads: seq<SimulatedBead<Id>>) returns (r: OrderResult<Id>)
    ensures OrderVerdict(beads, r)
  {
    var ids := IdSet(beads);
    if |beads| == 0 {
      VerdictIsRight(beads, map[], []);
      return Ordered([]);
    }
    var degree, dependents;
    ghost var listed;
    degree, dependents, listed := BuildTables(beads, ids);
    var order := OrderFromTables(degree, dependents, ids, listed);
    VerdictIsRight(beads, listed, order);
    if |order| != |beads| {
      var remaining: seq<Id> := [];
      for k := 0 to |beads|
        invariant remaining == Remaining(beads[..k], Elements(order))
      {
        assert beads[..k + 1][..k] == beads[..k];
        if beads[k].id !in order {
          remaining := remaining + [beads[k].id];
        }
      }
      assert beads[..|beads|] == beads;
      r := CycleDetected(remaining);
    } else {
      r := Ordered(order);
    }
  }

  lemma NoCycleAheadOfIds<Id(!new)>(beads: seq<SimulatedBead<Id>>)
    ensures Acyclic(DepGraph(beads)) <==> forall v :: v in IdSet(beads) ==> !LeadsToCycle(DepGraph(beads), v)
  {
    var g := DepGraph(beads);
    if !Acyclic(g) {
      var c :| OnCycle(g, c);
      var p :| WalkFromTo(g, p, c, c) && |p| >= 2;
      assert Edge(g, p[0], p[1]);
      assert c in IdSet(beads);
      ReachSelf(g, c);
      assert LeadsToCycle(g, c);
    }
  }

  /** Everything gets ordered exactly when ids are distinct and no cycle exists. */
  lemma CompleteIffAcyclic<Id(!new)>(beads: seq<SimulatedBead<Id>>, order: seq<Id>)
    requires Distinct(order) && forall v :: v in order <==> v in IdSet(beads) && !LeadsToCycle(DepGraph(beads), v)
    ensures |order| == |beads| <==> Distinct(IdsOf(beads)) && Acyclic(DepGraph(beads))
    ensures |order| == |beads| ==> multiset(order) == multiset(IdsOf(beads))
  {
    FullOrderIsPermutation(beads, order);
    NoCycleAheadOfIds(beads);
    var covers := forall v :: v in IdSet(beads) ==> v in order;
    assert covers <==> forall v :: v in IdSet(beads) ==> !LeadsToCycle(DepGraph(beads), v);
  }

  lemma VerdictIsRight<Id(!new)>(beads: seq<SimulatedBead<Id>>, listed: map<Id, seq<Id>>, order: seq<Id>)
    requires ListsDeps(IdSet(beads), beads, listed) && Exhausted(IdSet(beads), listed, order)
    ensures OrderVerdict(beads, if |order| == |beads| then Ordered(order)
            else CycleDetected(Remaining(beads, Elements(order))))
  {
    OrderedIffNoCycleAhead(beads, listed, order);
    CompleteIffAcyclic(beads, order);
    if |order| == |beads| {
      forall i, d | 0 <= i < |order| && DependsOn(beads, order[i], d) ensures d in order[..i] {
        DepGraphEdge(beads, order[i], d);
      }
    } else {
      RemainingReachesCycle(beads, order);
    }
  }

  lemma RemainingReachesCycle<Id(!new)>(beads: seq<SimulatedBead<Id>>, order: seq<Id>)
    requires forall v :: v in order <==> v in IdSet(beads) && !LeadsToCycle(DepGraph(beads), v)
    ensures forall x :: x in Remaining(beads, Elements(order)) <==>
            x in IdsOf(beads) && LeadsToCycle(DepGraph(beads), x)
  {
    forall x ensures x in Remaining(beads, Elements(order)) <==> x in IdsOf(beads) && LeadsToCycle(DepGraph(beads), x) {
      RemainingMember(beads, Elements(order), x);
    }
  }
}
