/** The bead dependency graph: edges from explicit rows and inline lists, and
    the cycles found by the strongly-connected-components search. */
module BeadGraph {
  import opened Graphs
  import opened Options
  import opened Selections
  import opened Sorting
  import Tarjan

  type Id = Text

  datatype EdgeType = Blocks | ParentChild | Related

  datatype BeadNode = BeadNode(id: Id, title: Text, status: Text, priority: Option<int>, labels: Option<seq<Text>>)

  datatype BeadEdge = BeadEdge(from: Id, to: Id, edgeType: EdgeType)

  /** A row of the bead list; rows that fail the schema are `None` in the input. */
  datatype BeadRow = BeadRow(node: BeadNode, dependencies: Option<seq<Id>>)

  datatype DepRow = DepRow(from: Id, to: Id, edgeType: Option<EdgeType>)

  datatype Graph = Graph(nodes: seq<BeadNode>, edges: seq<BeadEdge>, cycles: seq<seq<Id>>)

  // ---- What the rows say ---------------------------------------------------

  function NodesOf(rows: seq<BeadRow>): seq<BeadNode> {
    seq(|rows|, i requires 0 <= i < |rows| => rows[i].node)
  }

  function IdsOf(rows: seq<BeadRow>): seq<Id> {
    seq(|rows|, i requires 0 <= i < |rows| => rows[i].node.id)
  }

  /** The edge of an explicit row, if both its ends are listed beads. */
  function EdgeOf(ids: set<Id>, d: DepRow): seq<BeadEdge> {
    if d.from in ids && d.to in ids
    then [BeadEdge(d.from, d.to, if d.edgeType.Some? then d.edgeType.value else Blocks)]
    else []
  }

  function ExplicitEdges(ids: set<Id>, deps: seq<DepRow>): seq<BeadEdge> {
    if deps == [] then [] else EdgeOf(ids, deps[0]) + ExplicitEdges(ids, deps[1..])
  }

  ghost predicate ListsInline(rows: seq<BeadRow>, from: Id, to: Id) {
    exists i :: 0 <= i < |rows| && rows[i].node.id == from && rows[i].dependencies.Some?
        && to in rows[i].dependencies.value
  }

  ghost predicate ListsExplicitly(deps: seq<DepRow>, from: Id, to: Id) {
    exists i :: 0 <= i < |deps| && deps[i].from == from && deps[i].to == to
  }

  /** `from` depends on `to` according to the rows, both being listed beads. */
  ghost predicate DependsOn(rows: seq<BeadRow>, deps: seq<DepRow>, from: Id, to: Id) {
    from in IdsOf(rows) && to in IdsOf(rows) && (ListsExplicitly(deps, from, to) || ListsInline(rows, from, to))
  }

  predicate HasEdge(edges: seq<BeadEdge>, from: Id, to: Id) {
    exists i :: 0 <= i < |edges| && edges[i].from == from && edges[i].to == to
  }

  // ---- Collecting nodes and edges ------------------------------------------

  method CollectNodes(listJson: seq<Option<BeadRow>>) returns (nodes: seq<BeadNode>)
    ensures nodes == NodesOf(Present(listJson))
  {
    nodes := [];
    for k := 0 to |listJson|
      invariant nodes == NodesOf(Present(listJson[..k]))
    {
      assert listJson[..k + 1] == listJson[..k] + [listJson[k]];
      PresentAppend(listJson[..k], listJson[k]);
      if listJson[k].Some? {
        nodes := nodes + [listJson[k].value.node];
      }
    }
    assert listJson[..|listJson|] == listJson;
  }

  lemma {:induction false} ExplicitEdgesAppend(ids: set<Id>, deps: seq<DepRow>, d: DepRow)
    ensures ExplicitEdges(ids, deps + [d]) == ExplicitEdges(ids, deps) + EdgeOf(ids, d)
  {
    if deps == [] {
      assert deps + [d] == [d];
      assert EdgeOf(ids, d) + [] == EdgeOf(ids, d) == [] + EdgeOf(ids, d);
    } else {
      ExplicitEdgesAppend(ids, deps[1..], d);
      assert (deps + [d])[1..] == deps[1..] + [d];
    }
  }

  lemma {:induction false} ExplicitEdgesHasEdge(ids: set<Id>, deps: seq<DepRow>, from: Id, to: Id)
    ensures HasEdge(ExplicitEdges(ids, deps), from, to) <==> from in ids && to in ids && ListsExplicitly(deps, from, to)
  {
    if deps != [] {
      ExplicitEdgesHasEdge(ids, deps[1..], from, to);
      var rest, all := ExplicitEdges(ids, deps[1..]), ExplicitEdges(ids, deps);
      var shift := |all| - |rest|;
      assert all[shift..] == rest;
      if HasEdge(rest, from, to) {
        var i :| 0 <= i < |rest| && rest[i].from == from && rest[i].to == to;
        assert all[shift + i] == rest[i];
      }
      if i :| 0 <= i < |all| && all[i].from == from && all[i].to == to {
        if i < shift {
          assert deps[0].from == from && deps[0].to == to;
        } else {
          assert rest[i - shift] == all[i];
        }
      }
      if ListsExplicitly(deps, from, to) {
        var i :| 0 <= i < |deps| && deps[i].from == from && deps[i].to == to;
        assert i > 0 ==> deps[1..][i - 1] == deps[i];
        assert i == 0 && from in ids && to in ids ==> all[0].from == from && all[0].to == to;
      }
      if ListsExplicitly(deps[1..], from, to) {
        var i :| 0 <= i < |deps[1..]| && deps[1..][i].from == from && deps[1..][i].to == to;
        assert deps[i + 1] == deps[1..][i];
      }
    }
  }

  method CollectExplicit(ids: set<Id>, depJson: seq<Option<DepRow>>) returns (edges: seq<BeadEdge>)
    ensures edges == ExplicitEdges(ids, Present(depJson))
  {
    edges := [];
    for k := 0 to |depJson|
      invariant edges == ExplicitEdges(ids, Present(depJson[..k]))
    {
      assert depJson[..k + 1] == depJson[..k] + [depJson[k]];
      PresentAppend(depJson[..k], depJson[k]);
      if depJson[k].Some? {
        var d := depJson[k].value;
        ExplicitEdgesAppend(ids, Present(depJson[..k]), d);
        if d.from in ids && d.to in ids {
          edges := edges + [BeadEdge(d.from, d.to, if d.edgeType.Some? then d.edgeType.value else Blocks)];
        } else {
          assert edges + [] == edges;
        }
      } else {
        assert Present(depJson[..k]) + [] == Present(depJson[..k]);
      }
    }
    assert depJson[..|depJson|] == depJson;
  }

  /** Inline dependencies only add edges between listed beads that no earlier edge joins. */
  ghost predicate ExtendsWithNew(ids: set<Id>, explicit: seq<BeadEdge>, edges: seq<BeadEdge>) {
    && explicit <= edges
    && forall j {:trigger edges[j]} :: |explicit| <= j < |edges| ==>
         edges[j].edgeType == Blocks && edges[j].from in ids && edges[j].to in ids
             && !HasEdge(edges[..j], edges[j].from, edges[j].to)
  }

  /** The dependencies that a row lists inline on beads of the list, in order. */
  function InlineOf(ids: set<Id>, from: Id, list: seq<Id>): seq<(Id, Id)> {
    if list == [] then []
    else
      var last := list[|list| - 1];
      InlineOf(ids, from, list[..|list| - 1]) + (if last in ids then [(from, last)] else [])
  }

  function InlinePairs(ids: set<Id>, rows: seq<BeadRow>): seq<(Id, Id)> {
    if rows == [] then []
    else
      var last := rows[|rows| - 1];
      InlinePairs(ids, rows[..|rows| - 1])
      + (if last.dependencies.Some? then InlineOf(ids, last.node.id, last.dependencies.value) else [])
  }

  /** An edge for each pair, where it is first listed, unless there is one already. */
  function EdgesFor(explicit: seq<BeadEdge>, pairs: seq<(Id, Id)>): seq<BeadEdge> {
    if pairs == [] then []
    else
      var front, last := pairs[..|pairs| - 1], pairs[|pairs| - 1];
      EdgesFor(explicit, front)
      + (if last in front || HasEdge(explicit, last.0, last.1) then [] else [BeadEdge(last.0, last.1, Blocks)])
  }

  /** The edges are the explicit ones and those for the inline pairs, in the order of their
      first listing. */
  ghost predicate Follows(explicit: seq<BeadEdge>, edges: seq<BeadEdge>, pairs: seq<(Id, Id)>) {
    && edges == explicit + EdgesFor(explicit, pairs)
    && forall a, b {:trigger HasEdge(edges, a, b)} :: HasEdge(edges, a, b) <==>
        HasEdge(explicit, a, b) || (a, b) in pairs
  }

  lemma NextPair(explicit: seq<BeadEdge>, edges: seq<BeadEdge>, pairs: seq<(Id, Id)>, from: Id, to: Id)
    requires Follows(explicit, edges, pairs)
    ensures Follows(explicit, if HasEdge(edges, from, to) then edges
            else edges + [BeadEdge(from, to, Blocks)], pairs + [(from, to)])
  {
    var more := pairs + [(from, to)];
    assert more[..|pairs|] == pairs;
    if HasEdge(edges, from, to) {
      assert EdgesFor(explicit, pairs) + [] == EdgesFor(explicit, pairs);
    } else {
      var e := BeadEdge(from, to, Blocks);
      assert explicit + (EdgesFor(explicit, pairs) + [e]) == edges + [e];
      forall a, b ensures HasEdge(edges + [e], a, b) <==> HasEdge(edges, a, b) || (a == from && b == to) {
        HasEdgeAdd(edges, e, a, b);
      }
    }
  }

  lemma HasEdgeAdd(edges: seq<BeadEdge>, e: BeadEdge, a: Id, b: Id)
    ensures HasEdge(edges + [e], a, b) <==> HasEdge(edges, a, b) || (a == e.from && b == e.to)
  {
    assert (edges + [e])[|edges|] == e;
    if HasEdge(edges, a, b) {
      var i :| 0 <= i < |edges| && edges[i].from == a && edges[i].to == b;
      assert (edges + [e])[i] == edges[i];
    }
  }

  /** The next inline dependency of a row: an edge if both ends are listed and there is none yet. */
  lemma NextInline(ids: set<Id>, from: Id, list: seq<Id>, k: nat, explicit: seq<BeadEdge>, edges: seq<BeadEdge>,
      pairs: seq<(Id, Id)>)
    requires k < |list| && Follows(explicit, edges, pairs + InlineOf(ids, from, list[..k]))
    ensures var added := list[k] in ids && !HasEdge(edges, from, list[k]);
            Follows(explicit, if added then edges + [BeadEdge(from, list[k], Blocks)]
                else edges, pairs + InlineOf(ids, from, list[..k + 1]))
  {
    var done := InlineOf(ids, from, list[..k]);
    assert list[..k + 1][..k] == list[..k];
    if list[k] in ids {
      NextPair(explicit, edges, pairs + done, from, list[k]);
      assert pairs + (done + [(from, list[k])]) == (pairs + done) + [(from, list[k])];
    } else {
      assert done + [] == done;
    }
  }

  method AddInline(ids: set<Id>, from: Id, list: seq<Id>, edges0: seq<BeadEdge>, ghost explicit: seq<BeadEdge>,
      ghost pairs: seq<(Id, Id)>)
    returns (edges: seq<BeadEdge>)
    requires Follows(explicit, edges0, pairs)
    ensures Follows(explicit, edges, pairs + InlineOf(ids, from, list))
  {
    edges := edges0;
    assert pairs + [] == pairs;
    for k := 0 to |list|
      invariant Follows(explicit, edges, pairs + InlineOf(ids, from, list[..k]))
    {
      NextInline(ids, from, list, k, explicit, edges, pairs);
      if list[k] in ids && !HasEdge(edges, from, list[k]) {
        edges := edges + [BeadEdge(from, list[k], Blocks)];
      }
    }
    assert list[..|list|] == list;
  }

  method CollectInline(ids: set<Id>, listJson: seq<Option<BeadRow>>, explicit: seq<BeadEdge>)
      returns (edges: seq<BeadEdge>)
    requires forall i :: 0 <= i < |Present(listJson)| ==> Present(listJson)[i].node.id in ids
    ensures edges == explicit + EdgesFor(explicit, InlinePairs(ids, Present(listJson)))
    ensures ExtendsWithNew(ids, explicit, edges)
    ensures forall a, b :: HasEdge(edges, a, b) <==>
              HasEdge(explicit, a, b) || (b in ids && ListsInline(Present(listJson), a, b))
  {
    edges := explicit;
    assert explicit + [] == explicit;
    for k := 0 to |listJson|
      invariant Follows(explicit, edges, InlinePairs(ids, Present(listJson[..k])))
    {
      ghost var rows := Present(listJson[..k]);
      assert listJson[..k + 1] == listJson[..k] + [listJson[k]];
      PresentAppend(listJson[..k], listJson[k]);
      if listJson[k].Some? {
        var row := listJson[k].value;
        assert (rows + [row])[..|rows|] == rows;
        assert InlinePairs(ids, rows) + [] == InlinePairs(ids, rows);
        if row.dependencies.Some? {
          edges := AddInline(ids, row.node.id, row.dependencies.value, edges, explicit, InlinePairs(ids, rows));
        }
      } else {
        assert rows + [] == rows;
      }
    }
    assert listJson[..|listJson|] == listJson;
    FollowingIsNew(ids, Present(listJson), explicit);
    forall a, b ensures (a, b) in InlinePairs(ids, Present(listJson)) <==>
        b in ids && ListsInline(Present(listJson), a, b) {
      InlinePairsMember(ids, Present(listJson), a, b);
    }
  }

  lemma {:induction false} InlineOfMember(ids: set<Id>, from: Id, list: seq<Id>, a: Id, b: Id)
    ensures (a, b) in InlineOf(ids, from, list) <==> a == from && b in list && b in ids
  {
    if list != [] {
      InlineOfMember(ids, from, list[..|list| - 1], a, b);
      assert list == list[..|list| - 1] + [list[|list| - 1]];
    }
  }

  lemma {:induction false} InlinePairsMember(ids: set<Id>, rows: seq<BeadRow>, a: Id, b: Id)
    ensures (a, b) in InlinePairs(ids, rows) <==> b in ids && ListsInline(rows, a, b)
  {
    if rows != [] {
      var front, last := rows[..|rows| - 1], rows[|rows| - 1];
      InlinePairsMember(ids, front, a, b);
      assert rows == front + [last];
      ListsInlineAppend(front, last, a, b);
      if last.dependencies.Some? {
        InlineOfMember(ids, last.node.id, last.dependencies.value, a, b);
      }
    }
  }

  lemma {:induction false} EdgesForFollow(explicit: seq<BeadEdge>, pairs: seq<(Id, Id)>)
    ensures Follows(explicit, explicit + EdgesFor(explicit, pairs), pairs)
  {
    if pairs == [] {
      assert explicit + [] == explicit;
    } else {
      var front, last := pairs[..|pairs| - 1], pairs[|pairs| - 1];
      EdgesForFollow(explicit, front);
      NextPair(explicit, explicit + EdgesFor(explicit, front), front, last.0, last.1);
      assert pairs == front + [(last.0, last.1)];
    }
  }

  /** Inline pairs start at listed beads and end at listed beads, so what they add is new. */
  lemma FollowingIsNew(ids: set<Id>, rows: seq<BeadRow>, explicit: seq<BeadEdge>)
    requires forall i :: 0 <= i < |rows| ==> rows[i].node.id in ids
    ensures ExtendsWithNew(ids, explicit, explicit + EdgesFor(explicit, InlinePairs(ids, rows)))
  {
    forall a, b ensures (a, b) in InlinePairs(ids, rows) ==> a in ids && b in ids {
      InlinePairsMember(ids, rows, a, b);
    }
    EdgesForAreNew(ids, explicit, InlinePairs(ids, rows));
  }

  lemma {:induction false} EdgesForAreNew(ids: set<Id>, explicit: seq<BeadEdge>, pairs: seq<(Id, Id)>)
    requires forall a, b {:trigger (a, b) in pairs} :: (a, b) in pairs ==> a in ids && b in ids
    ensures ExtendsWithNew(ids, explicit, explicit + EdgesFor(explicit, pairs))
  {
    if pairs == [] {
      assert explicit + [] == explicit;
    } else {
      var front, last := pairs[..|pairs| - 1], pairs[|pairs| - 1];
      forall a, b {:trigger (a, b) in front} | (a, b) in front ensures (a, b) in pairs {
        assert pairs == front + [last];
      }
      assert (last.0, last.1) in pairs;
      EdgesForAreNew(ids, explicit, front);
      EdgesForFollow(explicit, front);
      var before := explicit + EdgesFor(explicit, front);
      if last in front || HasEdge(explicit, last.0, last.1) {
        assert EdgesFor(explicit, front) + [] == EdgesFor(explicit, front);
      } else {
        assert explicit + EdgesFor(explicit, pairs) == before + [BeadEdge(last.0, last.1, Blocks)];
        NewEdge(ids, explicit, before, BeadEdge(last.0, last.1, Blocks));
      }
    }
  }

  lemma NewEdge(ids: set<Id>, explicit: seq<BeadEdge>, edges: seq<BeadEdge>, e: BeadEdge)
    requires ExtendsWithNew(ids, explicit, edges)
    requires e.edgeType == Blocks && e.from in ids && e.to in ids && !HasEdge(edges, e.from, e.to)
    ensures ExtendsWithNew(ids, explicit, edges + [e])
  {
    var more := edges + [e];
    forall j | |explicit| <= j < |more| ensures !HasEdge(more[..j], more[j].from, more[j].to) {
      assert j < |edges| ==> more[..j] == edges[..j] && more[j] == edges[j];
      assert j == |edges| ==> more[..j] == edges;
    }
  }

  lemma ListsInlineAppend(rows: seq<BeadRow>, row: BeadRow, a: Id, b: Id)
    ensures ListsInline(rows + [row], a, b) <==>
              || ListsInline(rows, a, b)
              || (a == row.node.id && row.dependencies.Some? && b in row.dependencies.value)
  {
    var all := rows + [row];
    assert all[|rows|] == row;
    if ListsInline(rows, a, b) {
      var i :| 0 <= i < |rows| && rows[i].node.id == a && rows[i].dependencies.Some? && b in rows[i].dependencies.value;
      assert all[i] == rows[i];
    }
  }

  // ---- Where each edge comes from -----------------------------------------------------------

  /** The edge says what the row says: its ends, and its type if it gives one. */
  predicate FromRow(e: BeadEdge, d: DepRow) {
    e.from == d.from && e.to == d.to && e.edgeType == d.edgeType.GetOr(Blocks)
  }

  /** The first edges come from the rows with both ends listed, one each and in order. */
  ghost predicate StartsWithRows(ids: set<Id>, deps: seq<DepRow>, edges: seq<BeadEdge>, at: seq<nat>) {
    && Chosen(at, |deps|) && |at| <= |edges|
    && (forall j {:trigger at[j]} :: 0 <= j < |at| ==> FromRow(edges[j], deps[at[j]]))
    && (forall i {:trigger deps[i]} :: 0 <= i < |deps| ==> (i in at <==> deps[i].from in ids && deps[i].to in ids))
  }

  lemma {:induction false} ExplicitComeFromRows(ids: set<Id>, deps: seq<DepRow>) returns (at: seq<nat>)
    ensures StartsWithRows(ids, deps, ExplicitEdges(ids, deps), at) && |at| == |ExplicitEdges(ids, deps)|
  {
    at := [];
    if deps != [] {
      var front, last := deps[..|deps| - 1], deps[|deps| - 1];
      assert deps == front + [last];
      ExplicitEdgesAppend(ids, front, last);
      var before := ExplicitComeFromRows(ids, front);
      ChooseNext(before, |front|);
      var kept := last.from in ids && last.to in ids;
      at := if kept then before + [|front|] else before;
      forall i {:trigger deps[i]} | 0 <= i < |deps| ensures i in at <==> deps[i].from in ids && deps[i].to in ids {
        TakenOrNot(before, |front|, i, kept);
        assert i < |front| ==> deps[i] == front[i];
      }
      forall j | 0 <= j < |at| ensures FromRow(ExplicitEdges(ids, deps)[j], deps[at[j]]) {
        assert j < |before| ==> FromRow(ExplicitEdges(ids, front)[j], front[before[j]]);
      }
    }
  }

  /** Row `i` lists `b` at position `k`, and both are listed beads. */
  ghost predicate Mentions(ids: set<Id>, rows: seq<BeadRow>, i: nat, k: nat, a: Id, b: Id) {
    && i < |rows| && rows[i].node.id == a && rows[i].dependencies.Some?
    && k < |rows[i].dependencies.value| && rows[i].dependencies.value[k] == b && b in ids
  }

  predicate Before(i: nat, k: nat, m: nat, n: nat) {
    i < m || (i == m && k < n)
  }

  ghost predicate FirstMention(ids: set<Id>, rows: seq<BeadRow>, i: nat, k: nat, a: Id, b: Id) {
    && Mentions(ids, rows, i, k, a, b)
    && forall m: nat, n: nat {:trigger Mentions(ids, rows, m, n, a, b)} :: Before(m, n, i, k) ==>
        !Mentions(ids, rows, m, n, a, b)
  }

  /** The mentions in reading order, one for each pair of the list. */
  ghost predicate InReadingOrder(ids: set<Id>, rows: seq<BeadRow>, pairs: seq<(Id, Id)>, places: seq<(nat, nat)>) {
    && |places| == |pairs|
    && (forall m {:trigger places[m]} :: 0 <= m < |places| ==>
          Mentions(ids, rows, places[m].0, places[m].1, pairs[m].0, pairs[m].1))
    && (forall m, n {:trigger places[m], places[n]} :: 0 <= m < n < |places| ==>
          Before(places[m].0, places[m].1, places[n].0, places[n].1))
    && (forall i: nat, k: nat, a, b {:trigger Mentions(ids, rows, i, k, a, b)} :: Mentions(ids, rows, i, k, a, b) ==>
        (i, k) in places)
  }

  /** The places of one row's mentions, for the first `n` of its dependencies. */
  lemma {:induction false} RowPlaces(ids: set<Id>, rows: seq<BeadRow>, i: nat, n: nat) returns (ks: seq<nat>)
    requires i < |rows| && rows[i].dependencies.Some? && n <= |rows[i].dependencies.value|
    ensures var pairs := InlineOf(ids, rows[i].node.id, rows[i].dependencies.value[..n]);
            && |ks| == |pairs| && Chosen(ks, n)
            && (forall m {:trigger ks[m]} :: 0 <= m < |ks| ==> Mentions(ids, rows, i, ks[m], pairs[m].0, pairs[m].1))
            && (forall k {:trigger k in ks} :: 0 <= k < n && rows[i].dependencies.value[k] in ids ==> k in ks)
  {
    ks := [];
    if n > 0 {
      var list := rows[i].dependencies.value;
      assert list[..n][..n - 1] == list[..n - 1];
      var before := RowPlaces(ids, rows, i, n - 1);
      ChooseNext(before, n - 1);
      ks := if list[n - 1] in ids then before + [n - 1] else before;
      forall k | 0 <= k < n && list[k] in ids ensures k in ks {
        StaysChosen(before, n - 1, k);
      }
    }
  }

  lemma {:induction false} PairsInOrder(ids: set<Id>, rows: seq<BeadRow>, n: nat) returns (places: seq<(nat, nat)>)
    requires n <= |rows|
    ensures InReadingOrder(ids, rows[..n], InlinePairs(ids, rows[..n]), places)
  {
    places := [];
    if n > 0 {
      var front, all, last := rows[..n - 1], rows[..n], rows[n - 1];
      assert all[..n - 1] == front;
      var before := PairsInOrder(ids, rows, n - 1);
      var ks: seq<nat> := [];
      if last.dependencies.Some? {
        ks := RowPlaces(ids, all, n - 1, |last.dependencies.value|);
        assert last.dependencies.value[..|last.dependencies.value|] == last.dependencies.value;
      }
      var row: nat := n - 1;
      var added: seq<(nat, nat)> := seq(|ks|, m requires 0 <= m < |ks| => (row, ks[m]));
      places := before + added;
      OrderContinues(ids, front, last, before, ks, added);
      assert front + [last] == all;
    }
  }

  lemma OrderContinues(ids: set<Id>, front: seq<BeadRow>, last: BeadRow, before: seq<(nat, nat)>, ks: seq<nat>,
      added: seq<(nat, nat)>)
    requires InReadingOrder(ids, front, InlinePairs(ids, front), before)
    requires |added| == |ks| && forall m {:trigger added[m]} :: 0 <= m < |ks| ==> added[m] == (|front|, ks[m])
    requires last.dependencies.None? ==> ks == []
    requires last.dependencies.Some? ==>
               var pairs := InlineOf(ids, last.node.id, last.dependencies.value);
               && |ks| == |pairs| && Chosen(ks, |last.dependencies.value|)
               && (forall m {:trigger ks[m]} :: 0 <= m < |ks| ==>
                     Mentions(ids, front + [last], |front|, ks[m], pairs[m].0, pairs[m].1))
               && (forall k {:trigger k in ks} ::
                     0 <= k < |last.dependencies.value| && last.dependencies.value[k] in ids ==> k in ks)
    ensures InReadingOrder(ids, front + [last], InlinePairs(ids, front + [last]), before + added)
  {
    var all, places := front + [last], before + added;
    assert all[..|front|] == front;
    var pairs := InlinePairs(ids, all);
    forall m | 0 <= m < |places| ensures Mentions(ids, all, places[m].0, places[m].1, pairs[m].0, pairs[m].1) {
      if m < |before| {
        assert Mentions(ids, front, before[m].0, before[m].1, InlinePairs(ids, front)[m].0,
            InlinePairs(ids, front)[m].1);
      } else {
        assert places[m] == added[m - |before|] == (|front|, ks[m - |before|]);
      }
    }
    forall m, n | 0 <= m < n < |places| ensures Before(places[m].0, places[m].1, places[n].0, places[n].1) {
      if m < |before| {
        assert Mentions(ids, front, before[m].0, before[m].1, InlinePairs(ids, front)[m].0,
            InlinePairs(ids, front)[m].1);
        assert n >= |before| ==> places[n] == added[n - |before|];
      } else {
        assert places[m] == added[m - |before|] && places[n] == added[n - |before|];
      }
    }
    forall i: nat, k: nat, a, b {:trigger Mentions(ids, all, i, k, a, b)} | Mentions(ids, all, i, k, a, b)
      ensures (i, k) in places {
      if i < |front| {
        assert Mentions(ids, front, i, k, a, b);
      } else {
        assert k in ks;
        var m :| 0 <= m < |ks| && ks[m] == k;
        assert places[|before| + m] == added[m];
      }
    }
  }

  /** Each added edge stands for the first of its pairs, in the order of the pairs. */
  ghost predicate StandForFirsts(explicit: seq<BeadEdge>, pairs: seq<(Id, Id)>, added: seq<BeadEdge>, at: seq<nat>) {
    && Chosen(at, |pairs|) && |at| == |added|
    && forall j {:trigger at[j]} :: 0 <= j < |at| ==>
         (added[j].from, added[j].to) == pairs[at[j]] && pairs[at[j]] !in pairs[..at[j]]
  }

  lemma {:induction false} EdgesStandForFirsts(explicit: seq<BeadEdge>, pairs: seq<(Id, Id)>) returns (at: seq<nat>)
    ensures StandForFirsts(explicit, pairs, EdgesFor(explicit, pairs), at)
  {
    at := [];
    if pairs != [] {
      var front, last := pairs[..|pairs| - 1], pairs[|pairs| - 1];
      var before := EdgesStandForFirsts(explicit, front);
      ChooseNext(before, |front|);
      at := if last in front || HasEdge(explicit, last.0, last.1) then before else before + [|front|];
      forall j | 0 <= j < |at|
        ensures var e := EdgesFor(explicit, pairs)[j]; (e.from, e.to) == pairs[at[j]] && pairs[at[j]] !in pairs[..at[j]]
      {
        if j < |before| {
          assert front[..before[j]] == pairs[..before[j]] && front[before[j]] == pairs[before[j]];
        } else {
          assert pairs[..|front|] == front;
        }
      }
    }
  }

  /** The inline edges stand in the order in which the rows first mention them. */
  ghost predicate InlineInOrder(ids: set<Id>, rows: seq<BeadRow>, added: seq<BeadEdge>) {
    exists places: seq<(nat, nat)> {:trigger InlineAt(ids, rows, added, places)} :: InlineAt(ids, rows, added, places)
  }

  ghost predicate InlineAt(ids: set<Id>, rows: seq<BeadRow>, added: seq<BeadEdge>, places: seq<(nat, nat)>) {
    && |places| == |added|
    && (forall j {:trigger places[j]} :: 0 <= j < |places| ==>
          FirstMention(ids, rows, places[j].0, places[j].1, added[j].from, added[j].to))
    && (forall j, k {:trigger places[j], places[k]} :: 0 <= j < k < |places| ==>
          Before(places[j].0, places[j].1, places[k].0, places[k].1))
  }

  lemma FirstPairIsFirstMention(ids: set<Id>, rows: seq<BeadRow>, pairs: seq<(Id, Id)>, places: seq<(nat, nat)>, m: nat)
    requires InReadingOrder(ids, rows, pairs, places) && m < |pairs| && pairs[m] !in pairs[..m]
    ensures FirstMention(ids, rows, places[m].0, places[m].1, pairs[m].0, pairs[m].1)
  {
    forall i: nat, k: nat {:trigger Mentions(ids, rows, i, k, pairs[m].0, pairs[m].1)}
      | Before(i, k, places[m].0, places[m].1)
      ensures !Mentions(ids, rows, i, k, pairs[m].0, pairs[m].1)
    {
      if n :| 0 <= n < |places| && places[n] == (i, k) {
        EarlierPlace(places, n, m);
        assert pairs[..m][n] == pairs[n];
        assert Mentions(ids, rows, i, k, pairs[n].0, pairs[n].1);
      }
    }
  }

  lemma EarlierPlace(places: seq<(nat, nat)>, n: nat, m: nat)
    requires forall j, k {:trigger places[j], places[k]} :: 0 <= j < k < |places| ==>
               Before(places[j].0, places[j].1, places[k].0, places[k].1)
    requires n < |places| && m < |places|
    ensures Before(places[n].0, places[n].1, places[m].0, places[m].1) ==> n < m
  {
    if m < n {
      assert Before(places[m].0, places[m].1, places[n].0, places[n].1);
    }
  }

  lemma InlineFollowMentions(ids: set<Id>, rows: seq<BeadRow>, explicit: seq<BeadEdge>)
    ensures InlineInOrder(ids, rows, EdgesFor(explicit, InlinePairs(ids, rows)))
  {
    var pairs := InlinePairs(ids, rows);
    var added := EdgesFor(explicit, pairs);
    var all := PairsInOrder(ids, rows, |rows|);
    assert rows[..|rows|] == rows;
    var at := EdgesStandForFirsts(explicit, pairs);
    var places := seq(|at|, j requires 0 <= j < |at| => all[at[j]]);
    forall j | 0 <= j < |places|
      ensures FirstMention(ids, rows, places[j].0, places[j].1, added[j].from, added[j].to)
    {
      assert (added[j].from, added[j].to) == pairs[at[j]];
      FirstPairIsFirstMention(ids, rows, pairs, all, at[j]);
    }
    forall j, k | 0 <= j < k < |places| ensures Before(places[j].0, places[j].1, places[k].0, places[k].1) {
      assert at[j] < at[k];
    }
    assert InlineAt(ids, rows, added, places);
  }

  // ---- Adjacency -----------------------------------------------------------

  function Targets(edges: seq<BeadEdge>, from: Id): seq<Id> {
    if edges == [] then []
    else
      var last := edges[|edges| - 1];
      Targets(edges[..|edges| - 1], from) + (if last.from == from then [last.to] else [])
  }

  lemma {:induction false} TargetsAreEdges(edges: seq<BeadEdge>, a: Id, b: Id)
    ensures b in Targets(edges, a) <==> HasEdge(edges, a, b)
  {
    if edges != [] {
      var front := edges[..|edges| - 1];
      TargetsAreEdges(front, a, b);
      if HasEdge(front, a, b) {
        var i :| 0 <= i < |front| && front[i].from == a && front[i].to == b;
        assert edges[i] == front[i];
      }
    }
  }

  method BuildAdjacency(nodeIds: seq<Id>, edges: seq<BeadEdge>) returns (adjacency: Digraph<Id>)
    ensures adjacency.Keys == Elements(nodeIds)
    ensures forall u :: u in adjacency ==> adjacency[u] == Targets(edges, u)
  {
    adjacency := map[];
    for k := 0 to |nodeIds|
      invariant adjacency.Keys == Elements(nodeIds[..k])
      invariant forall u :: u in adjacency ==> adjacency[u] == []
    {
      adjacency := adjacency[nodeIds[k] := []];
      assert nodeIds[..k + 1] == nodeIds[..k] + [nodeIds[k]];
    }
    assert nodeIds[..|nodeIds|] == nodeIds;
    for k := 0 to |edges|
      invariant adjacency.Keys == Elements(nodeIds)
      invariant forall u :: u in adjacency ==> adjacency[u] == Targets(edges[..k], u)
    {
      assert edges[..k + 1][..k] == edges[..k];
      var edge := edges[k];
      if edge.from in adjacency {
        adjacency := adjacency[edge.from := adjacency[edge.from] + [edge.to]];
      }
    }
    assert edges[..|edges|] == edges;
  }

  // ---- Cycles --------------------------------------------------------------

  /** A node of a component lies on a cycle exactly when the component has a
      second node or the node has an edge to itself. */
  lemma ComponentOnCycle(g: Digraph<Id>, c: seq<Id>, x: Id)
    requires Tarjan.IsComponent(g, c) && x in c
    ensures OnCycle(g, x) <==> |c| >= 2 || Edge(g, x, x)
  {
    OnCycleViaSuccessor(g, x);
    if |c| >= 2 {
      var y := if c[0] == x then c[1] else c[0];
      assert Mutual(g, x, y);
      var p :| WalkFromTo(g, p, x, y);
      assert |p| >= 2;
      assert WalkFromTo(g, p[1..], p[1], y);
      ReachTransitive(g, p[1], y, x);
      assert Edge(g, x, p[1]);
    }
    if Edge(g, x, x) {
      ReachSelf(g, x);
    }
    if OnCycle(g, x) {
      var w :| Edge(g, x, w) && Reach(g, w, x);
      ReachEdge(g, x, w);
      assert w in c;
    }
  }

  /** `c` lists in ascending order exactly the nodes that some node of it reaches
      and is reached from. */
  ghost predicate IsCycle(g: Digraph<Id>, c: seq<Id>) {
    && |c| > 0 && Distinct(c) && SortedBy(TextLe, c)
    && forall x, y :: x in c ==> (y in c <==> Mutual(g, x, y))
  }

  predicate CycleLe(a: seq<Id>, b: seq<Id>) {
    if a == [] || b == [] then |a| <= |b|
    else if a[0] == b[0] then |a| <= |b|
    else TextLe(a[0], b[0])
  }

  lemma CycleLeIsTotalPreorder()
    ensures TotalPreorder(CycleLe)
  {
    forall x: seq<Id>, y: seq<Id> ensures CycleLe(x, y) || CycleLe(y, x) {
      if x != [] && y != [] {
        TextLeTotal(x[0], y[0]);
      }
    }
    forall x: seq<Id>, y: seq<Id>, z: seq<Id> | CycleLe(x, y) && CycleLe(y, z) ensures CycleLe(x, z) {
      if x != [] && y != [] && z != [] {
        TextLeReflexive(x[0]);
        TextLeReflexive(y[0]);
        TextLeTransitive(x[0], y[0], z[0]);
        if x[0] == z[0] {
          TextLeTotal(x[0], y[0]);
        }
      }
    }
  }

  method FindSelfLoops(edges: seq<BeadEdge>) returns (ids: set<Id>)
    ensures forall x :: x in ids <==> HasEdge(edges, x, x)
  {
    ids := {};
    for k := 0 to |edges|
      invariant forall x :: x in ids <==> HasEdge(edges[..k], x, x)
    {
      assert edges[..k + 1][k] == edges[k];
      if edges[k].from == edges[k].to {
        ids := ids + {edges[k].from};
      }
    }
    assert edges[..|edges|] == edges;
  }

  ghost predicate Disjoint(cs: seq<seq<Id>>) {
    forall i, j, x {:trigger x in cs[i], x in cs[j]} :: 0 <= i < |cs| && 0 <= j < |cs| && x in cs[i] && x in cs[j] ==>
        i == j
  }

  ghost predicate Listed(cs: seq<seq<Id>>, x: Id) {
    exists i :: 0 <= i < |cs| && x in cs[i]
  }

  predicate Kept(scc: seq<Id>, selfLoopIds: set<Id>) {
    |scc| >= 2 || (|scc| == 1 && scc[0] in selfLoopIds)
  }

  ghost predicate Ascending(src: seq<nat>) {
    forall i, j :: 0 <= i < j < |src| ==> src[i] < src[j]
  }

  /** `raw` has a cycle for each of the first `k` components that are kept: `raw[i]` for component `src[i]`. */
  ghost predicate Picked(g: Digraph<Id>, sccs: seq<seq<Id>>, selfLoopIds: set<Id>, raw: seq<seq<Id>>, src: seq<nat>,
      k: nat) {
    && |src| == |raw| && k <= |sccs| && Ascending(src)
    && (forall i {:trigger src[i]} {:trigger raw[i]} :: 0 <= i < |raw| ==>
        src[i] < k && IsCycle(g, raw[i]) && SameMembers(raw[i], sccs[src[i]]))
    && (forall m {:trigger sccs[m]} :: 0 <= m < k ==> (m in src <==> Kept(sccs[m], selfLoopIds)))
  }

  lemma PickOne(g: Digraph<Id>, sccs: seq<seq<Id>>, selfLoopIds: set<Id>, raw: seq<seq<Id>>, src: seq<nat>, k: nat,
      c: seq<Id>)
    requires k < |sccs| && Picked(g, sccs, selfLoopIds, raw, src, k) && Kept(sccs[k], selfLoopIds)
    requires IsCycle(g, c) && SameMembers(c, sccs[k])
    ensures Picked(g, sccs, selfLoopIds, raw + [c], src + [k], k + 1)
  {
    assert (src + [k])[|src|] == k;
    assert Ascending(src + [k]);
  }

  lemma PickNone(g: Digraph<Id>, sccs: seq<seq<Id>>, selfLoopIds: set<Id>, raw: seq<seq<Id>>, src: seq<nat>, k: nat)
    requires k < |sccs| && Picked(g, sccs, selfLoopIds, raw, src, k) && !Kept(sccs[k], selfLoopIds)
    ensures Picked(g, sccs, selfLoopIds, raw, src, k + 1)
  {
  }

  lemma SelfLoopIsCycle(g: Digraph<Id>, scc: seq<Id>)
    requires Tarjan.IsComponent(g, scc) && |scc| == 1
    ensures IsCycle(g, [scc[0]]) && SameMembers([scc[0]], scc)
  {
    assert [scc[0]] == scc;
  }

  /** Keeps the components with at least two nodes or a self-loop, each sorted. */
  method PickCycles(ghost g: Digraph<Id>, ghost roots: seq<Id>, sccs: seq<seq<Id>>, selfLoopIds: set<Id>,
      ghost place: map<Id, nat>)
    returns (raw: seq<seq<Id>>)
    requires Tarjan.IsDecomposition(g, roots, sccs, place)
    requires forall x :: x in selfLoopIds <==> Edge(g, x, x)
    ensures forall i :: 0 <= i < |raw| ==> IsCycle(g, raw[i])
    ensures Disjoint(raw)
    ensures forall x :: Listed(raw, x) <==> x in place && OnCycle(g, x)
  {
    raw := [];
    ghost var src: seq<nat> := [];
    for k := 0 to |sccs|
      invariant Picked(g, sccs, selfLoopIds, raw, src, k)
    {
      var scc := sccs[k];
      assert Tarjan.IsComponent(g, scc);
      if |scc| >= 2 {
        SortedComponentIsCycle(g, scc);
        PickOne(g, sccs, selfLoopIds, raw, src, k, SortBy(TextLe, scc));
        raw, src := raw + [SortBy(TextLe, scc)], src + [k];
      } else if |scc| == 1 && scc[0] in selfLoopIds {
        SelfLoopIsCycle(g, scc);
        PickOne(g, sccs, selfLoopIds, raw, src, k, [scc[0]]);
        raw, src := raw + [[scc[0]]], src + [k];
      } else {
        PickNone(g, sccs, selfLoopIds, raw, src, k);
      }
    }
    PickedCyclesAreAll(g, roots, sccs, selfLoopIds, place, raw, src);
  }

  ghost predicate SameMembers(a: seq<Id>, b: seq<Id>) {
    forall x :: x in a <==> x in b
  }

  lemma SortedComponentIsCycle(g: Digraph<Id>, scc: seq<Id>)
    requires Tarjan.IsComponent(g, scc)
    ensures IsCycle(g, SortBy(TextLe, scc)) && SameMembers(SortBy(TextLe, scc), scc)
  {
    TextLeIsTotalPreorder();
    SortBySorts(TextLe, scc);
    SortByKeepsElements(TextLe, scc);
    DistinctPermutation(scc, SortBy(TextLe, scc));
  }

  lemma PickedCyclesAreAll(g: Digraph<Id>, roots: seq<Id>, sccs: seq<seq<Id>>, selfLoopIds: set<Id>,
      place: map<Id, nat>,
      raw: seq<seq<Id>>, src: seq<nat>)
    requires Tarjan.IsDecomposition(g, roots, sccs, place)
    requires forall x :: x in selfLoopIds <==> Edge(g, x, x)
    requires Picked(g, sccs, selfLoopIds, raw, src, |sccs|)
    ensures Disjoint(raw)
    ensures forall x :: Listed(raw, x) <==> x in place && OnCycle(g, x)
  {
    forall i, j, x | 0 <= i < |raw| && 0 <= j < |raw| && x in raw[i] && x in raw[j] ensures i == j {
      assert x in sccs[src[i]] && x in sccs[src[j]];
    }
    forall x ensures Listed(raw, x) <==> x in place && OnCycle(g, x) {
      if Listed(raw, x) {
        var i :| 0 <= i < |raw| && x in raw[i];
        assert x in sccs[src[i]] && src[i] in src;
        MemberOnCycle(g, sccs[src[i]], selfLoopIds, x);
      }
      if x in place && OnCycle(g, x) {
        var m := place[x];
        MemberOnCycle(g, sccs[m], selfLoopIds, x);
        var i :| 0 <= i < |src| && src[i] == m;
        assert x in raw[i];
      }
    }
  }

  lemma MemberOnCycle(g: Digraph<Id>, c: seq<Id>, selfLoopIds: set<Id>, x: Id)
    requires Tarjan.IsComponent(g, c) && x in c
    requires forall y :: y in selfLoopIds <==> Edge(g, y, y)
    ensures OnCycle(g, x) <==> Kept(c, selfLoopIds)
  {
    ComponentOnCycle(g, c, x);
  }

  /** The cycles list exactly the nodes on cycles, each once, smallest id first. */
  ghost predicate ListsCycles(g: Digraph<Id>, ids: seq<Id>, cycles: seq<seq<Id>>) {
    && (forall i :: 0 <= i < |cycles| ==> IsCycle(g, cycles[i]))
    && Disjoint(cycles)
    && (forall i, j :: 0 <= i < j < |cycles| ==>
          cycles[i] != [] && cycles[j] != [] && cycles[i][0] != cycles[j][0] && TextLe(cycles[i][0], cycles[j][0]))
    && (forall x :: Listed(cycles, x) <==> x in ids && OnCycle(g, x))
  }

  lemma SameMembersListAlike(a: seq<seq<Id>>, b: seq<seq<Id>>, x: Id)
    requires forall c :: c in a <==> c in b
    ensures Listed(a, x) <==> Listed(b, x)
  {
    if Listed(a, x) {
      var i :| 0 <= i < |a| && x in a[i];
      assert a[i] in b;
    }
    if Listed(b, x) {
      var i :| 0 <= i < |b| && x in b[i];
      assert b[i] in a;
    }
  }

  lemma StartsAscend(g: Digraph<Id>, cycles: seq<seq<Id>>, i: nat, j: nat)
    requires i < j < |cycles| && IsCycle(g, cycles[i]) && IsCycle(g, cycles[j])
    requires Disjoint(cycles) && CycleLe(cycles[i], cycles[j])
    ensures cycles[i][0] != cycles[j][0] && TextLe(cycles[i][0], cycles[j][0])
  {
    assert cycles[i][0] in cycles[i] && cycles[j][0] in cycles[j];
  }

  lemma SortedCycles(g: Digraph<Id>, ids: seq<Id>, raw: seq<seq<Id>>)
    requires forall i :: 0 <= i < |raw| ==> IsCycle(g, raw[i])
    requires Disjoint(raw)
    requires forall x :: Listed(raw, x) <==> x in ids && OnCycle(g, x)
    ensures ListsCycles(g, ids, SortBy(CycleLe, raw))
  {
    var cycles := SortBy(CycleLe, raw);
    CycleLeIsTotalPreorder();
    SortBySorts(CycleLe, raw);
    SortByKeepsElements(CycleLe, raw);
    forall i | 0 <= i < |cycles| ensures IsCycle(g, cycles[i]) {
      assert cycles[i] in raw;
    }
    PermutationStaysDisjoint(raw, cycles);
    forall x ensures Listed(cycles, x) <==> Listed(raw, x) {
      SameMembersListAlike(cycles, raw, x);
    }
    CyclesAscend(g, cycles);
  }

  lemma CyclesAscend(g: Digraph<Id>, cycles: seq<seq<Id>>)
    requires forall i :: 0 <= i < |cycles| ==> IsCycle(g, cycles[i])
    requires Disjoint(cycles) && SortedBy(CycleLe, cycles)
    ensures forall i, j :: 0 <= i < j < |cycles| ==>
              cycles[i] != [] && cycles[j] != [] && cycles[i][0] != cycles[j][0] && TextLe(cycles[i][0], cycles[j][0])
  {
    forall i, j | 0 <= i < j < |cycles|
      ensures cycles[i] != [] && cycles[j] != [] && cycles[i][0] != cycles[j][0] && TextLe(cycles[i][0], cycles[j][0])
    {
      assert IsCycle(g, cycles[i]) && IsCycle(g, cycles[j]);
      StartsAscend(g, cycles, i, j);
    }
  }

  lemma PermutationStaysDisjoint(a: seq<seq<Id>>, b: seq<seq<Id>>)
    requires Disjoint(a) && multiset(a) == multiset(b)
    requires forall i :: 0 <= i < |a| ==> a[i] != []
    ensures Disjoint(b)
  {
    forall i, j | 0 <= i < j < |a| ensures a[i] != a[j] {
      assert a[i][0] in a[i];
    }
    DistinctPermutation(a, b);
    forall i, j, x | 0 <= i < |b| && 0 <= j < |b| && x in b[i] && x in b[j] ensures i == j {
      assert b[i] in multiset(b) && b[j] in multiset(b);
      var k :| 0 <= k < |a| && a[k] == b[i];
      var l :| 0 <= l < |a| && a[l] == b[j];
      assert x in a[k] && x in a[l];
    }
  }

  /** Where all edges come from: first one for each explicit row between listed beads, with what
      the row says, then those for new inline dependencies in the order of their mention. */
  ghost predicate EdgesComeFrom(rows: seq<BeadRow>, deps: seq<DepRow>, edges: seq<BeadEdge>) {
    exists at {:trigger StartsWithRows(Elements(IdsOf(rows)), deps, edges, at)} ::
      && StartsWithRows(Elements(IdsOf(rows)), deps, edges, at)
      && InlineInOrder(Elements(IdsOf(rows)), rows, edges[|at|..])
  }

  lemma EdgesHaveOrigins(rows: seq<BeadRow>, deps: seq<DepRow>, explicit: seq<BeadEdge>, edges: seq<BeadEdge>)
    requires var ids := Elements(IdsOf(rows));
             explicit == ExplicitEdges(ids, deps) && edges == explicit + EdgesFor(explicit, InlinePairs(ids, rows))
    ensures EdgesComeFrom(rows, deps, edges)
  {
    var ids := Elements(IdsOf(rows));
    var at := ExplicitComeFromRows(ids, deps);
    assert forall j {:trigger at[j]} :: 0 <= j < |at| ==> edges[j] == explicit[j];
    assert StartsWithRows(ids, deps, edges, at);
    InlineFollowMentions(ids, rows, explicit);
    assert edges[|at|..] == EdgesFor(explicit, InlinePairs(ids, rows));
  }

  /** The explicit edges, and then the inline ones. */
  method CollectEdges(ids: set<Id>, listJson: seq<Option<BeadRow>>, depJson: seq<Option<DepRow>>)
      returns (edges: seq<BeadEdge>)
    requires ids == Elements(IdsOf(Present(listJson)))
    ensures var rows, deps := Present(listJson), Present(depJson);
            && EdgesComeFrom(rows, deps, edges)
            && ExtendsWithNew(ids, ExplicitEdges(ids, deps), edges)
            && forall a, b :: HasEdge(edges, a, b) <==> DependsOn(rows, deps, a, b)
  {
    ghost var rows, deps := Present(listJson), Present(depJson);
    forall i | 0 <= i < |rows| ensures rows[i].node.id in ids {
      assert IdsOf(rows)[i] == rows[i].node.id;
    }
    var explicit := CollectExplicit(ids, depJson);
    edges := CollectInline(ids, listJson, explicit);
    EdgesAreDependencies(rows, deps, edges);
    EdgesHaveOrigins(rows, deps, explicit, edges);
  }

  /** The cycles among the edges. */
  method ListTheCycles(nodeIds: seq<Id>, edges: seq<BeadEdge>, ghost rows: seq<BeadRow>, ghost deps: seq<DepRow>)
    returns (cycles: seq<seq<Id>>, ghost adjacency: Digraph<Id>)
    requires nodeIds == IdsOf(rows) && forall a, b :: HasEdge(edges, a, b) <==> DependsOn(rows, deps, a, b)
    ensures forall a, b :: Edge(adjacency, a, b) <==> DependsOn(rows, deps, a, b)
    ensures ListsCycles(adjacency, nodeIds, cycles)
  {
    var adj := BuildAdjacency(nodeIds, edges);
    adjacency := adj;
    forall a, b ensures Edge(adj, a, b) <==> HasEdge(edges, a, b) {
      TargetsAreEdges(edges, a, b);
      assert HasEdge(edges, a, b) ==> a in nodeIds;
    }
    var sccs, place := Tarjan.TarjanSCC(nodeIds, adj);
    var selfLoopIds := FindSelfLoops(edges);
    var rawCycles := PickCycles(adj, nodeIds, sccs, selfLoopIds, place);
    PlacesAreIds(rows, deps, adj, place);
    SortedCycles(adj, nodeIds, rawCycles);
    cycles := SortBy(CycleLe, rawCycles);
  }

  /** The whole graph: nodes and edges as the rows say, and its cycles. */
  method BuildBeadGraph(listJson: seq<Option<BeadRow>>, depJson: seq<Option<DepRow>>)
    returns (graph: Graph, ghost adjacency: Digraph<Id>)
    ensures var rows := Present(listJson);
            |graph.nodes| == |rows| && forall i {:trigger graph.nodes[i]} :: 0 <= i < |rows| ==>
                graph.nodes[i] == rows[i].node
    ensures EdgesComeFrom(Present(listJson), Present(depJson), graph.edges)
    ensures var rows, deps := Present(listJson), Present(depJson);
            && ExtendsWithNew(Elements(IdsOf(rows)), ExplicitEdges(Elements(IdsOf(rows)), deps), graph.edges)
            && (forall a, b :: HasEdge(graph.edges, a, b) <==> DependsOn(rows, deps, a, b))
            && (forall a, b :: Edge(adjacency, a, b) <==> DependsOn(rows, deps, a, b))
            && ListsCycles(adjacency, IdsOf(rows), graph.cycles)
  {
    var nodes := CollectNodes(listJson);
    var nodeIds := seq(|nodes|, i requires 0 <= i < |nodes| => nodes[i].id);
    assert nodeIds == IdsOf(Present(listJson));
    var edges := CollectEdges(Elements(nodeIds), listJson, depJson);
    var cycles;
    cycles, adjacency := ListTheCycles(nodeIds, edges, Present(listJson), Present(depJson));
    graph := Graph(nodes, edges, cycles);
  }

  lemma EdgesAreDependencies(rows: seq<BeadRow>, deps: seq<DepRow>, edges: seq<BeadEdge>)
    requires var ids := Elements(IdsOf(rows));
             forall a, b :: HasEdge(edges, a, b) <==>
               HasEdge(ExplicitEdges(ids, deps), a, b) || (b in ids && ListsInline(rows, a, b))
    ensures forall a, b :: HasEdge(edges, a, b) <==> DependsOn(rows, deps, a, b)
  {
    var ids := Elements(IdsOf(rows));
    forall a, b ensures HasEdge(edges, a, b) <==> DependsOn(rows, deps, a, b) {
      ExplicitEdgesHasEdge(ids, deps, a, b);
      if ListsInline(rows, a, b) {
        var i :| 0 <= i < |rows| && rows[i].node.id == a;
        assert IdsOf(rows)[i] == a;
      }
    }
  }

  /** Edges only lead to listed beads, so the search covers exactly those. */
  lemma PlacesAreIds(rows: seq<BeadRow>, deps: seq<DepRow>, g: Digraph<Id>, place: map<Id, nat>)
    requires forall a, b :: Edge(g, a, b) <==> DependsOn(rows, deps, a, b)
    requires forall x :: x in place <==> Tarjan.FromRoots(g, IdsOf(rows), x)
    ensures forall x :: x in place <==> x in IdsOf(rows)
  {
    var ids := IdsOf(rows);
    forall x ensures Tarjan.FromRoots(g, ids, x) <==> x in ids {
      if x in ids {
        ReachSelf(g, x);
      }
      if Tarjan.FromRoots(g, ids, x) {
        var r :| r in ids && Reach(g, r, x);
        ClosedSetTrapsReach(g, Elements(ids), r, x);
      }
    }
  }
}
