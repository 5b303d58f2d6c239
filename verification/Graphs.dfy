/** Directed graphs as adjacency maps, and the theory of paths and cycles that
    the bead graph and the wave scheduler are specified against. */
module Graphs {

  /** `adjacency.get(node)` may be undefined: an absent node has no neighbours. */
  type Digraph<T> = map<T, seq<T>>

  function Neighbours<T>(g: Digraph<T>, u: T): seq<T> {
    if u in g then g[u] else []
  }

  predicate Edge<T(==)>(g: Digraph<T>, u: T, v: T) {
    v in Neighbours(g, u)
  }

  /** `p` is a non-empty walk: consecutive nodes are joined by edges. */
  ghost predicate Walk<T(!new)>(g: Digraph<T>, p: seq<T>) {
    && |p| > 0
    && (|p| > 1 ==> Edge(g, p[0], p[1]) && Walk(g, p[1..]))
  }

  ghost predicate WalkFromTo<T(!new)>(g: Digraph<T>, p: seq<T>, u: T, v: T) {
    Walk(g, p) && p[0] == u && p[|p| - 1] == v
  }

  /** `v` can be reached from `u` along zero or more edges. */
  ghost predicate Reach<T(!new)>(g: Digraph<T>, u: T, v: T) {
    exists p :: WalkFromTo(g, p, u, v)
  }

  ghost predicate Mutual<T(!new)>(g: Digraph<T>, u: T, v: T) {
    Reach(g, u, v) && Reach(g, v, u)
  }

  /** `v` lies on a cycle: a walk with at least one edge leads from `v` back to `v`. */
  ghost predicate OnCycle<T(!new)>(g: Digraph<T>, v: T) {
    exists p :: WalkFromTo(g, p, v, v) && |p| >= 2
  }

  ghost predicate Acyclic<T(!new)>(g: Digraph<T>) {
    forall v :: !OnCycle(g, v)
  }

  /** A cycle can be reached from `v`. */
  ghost predicate LeadsToCycle<T(!new)>(g: Digraph<T>, v: T) {
    exists c :: Reach(g, v, c) && OnCycle(g, c)
  }

  lemma ReachSelf<T(!new)>(g: Digraph<T>, u: T)
    ensures Reach(g, u, u)
  {
    assert WalkFromTo(g, [u], u, u);
  }

  lemma {:induction false} JoinWalks<T(!new)>(g: Digraph<T>, p: seq<T>, q: seq<T>)
    requires Walk(g, p) && Walk(g, q) && p[|p| - 1] == q[0]
    ensures WalkFromTo(g, p + q[1..], p[0], q[|q| - 1])
  {
    if |p| == 1 {
      assert p + q[1..] == q;
    } else {
      JoinWalks(g, p[1..], q);
      assert (p + q[1..])[1..] == p[1..] + q[1..];
    }
  }

  lemma ReachTransitive<T(!new)>(g: Digraph<T>, u: T, v: T, w: T)
    requires Reach(g, u, v) && Reach(g, v, w)
    ensures Reach(g, u, w)
  {
    var p :| WalkFromTo(g, p, u, v);
    var q :| WalkFromTo(g, q, v, w);
    JoinWalks(g, p, q);
  }

  lemma ReachEdge<T(!new)>(g: Digraph<T>, u: T, v: T)
    requires Edge(g, u, v)
    ensures Reach(g, u, v)
  {
    assert WalkFromTo(g, [u, v], u, v);
  }

  /** A node is on a cycle exactly when some successor of it reaches it. */
  lemma OnCycleViaSuccessor<T(!new)>(g: Digraph<T>, v: T)
    ensures OnCycle(g, v) <==> exists w :: Edge(g, v, w) && Reach(g, w, v)
  {
    if OnCycle(g, v) {
      var p :| WalkFromTo(g, p, v, v) && |p| >= 2;
      var w := p[1];
      assert WalkFromTo(g, p[1..], w, v);
      assert Edge(g, v, w) && Reach(g, w, v);
    }
    if exists w :: Edge(g, v, w) && Reach(g, w, v) {
      var w :| Edge(g, v, w) && Reach(g, w, v);
      var q :| WalkFromTo(g, q, w, v);
      assert Walk(g, [v, w]);
      JoinWalks(g, [v, w], q);
      assert |[v, w] + q[1..]| >= 2;
    }
  }

  /** A set closed under edges is closed under reachability. */
  lemma {:induction false} ClosedSetTrapsWalk<T(!new)>(g: Digraph<T>, S: set<T>, p: seq<T>)
    requires Walk(g, p) && p[0] in S
    requires forall x, y :: x in S && Edge(g, x, y) ==> y in S
    ensures p[|p| - 1] in S
  {
    if |p| > 1 {
      ClosedSetTrapsWalk(g, S, p[1..]);
    }
  }

  lemma ClosedSetTrapsReach<T(!new)>(g: Digraph<T>, S: set<T>, u: T, v: T)
    requires u in S && Reach(g, u, v)
    requires forall x, y :: x in S && Edge(g, x, y) ==> y in S
    ensures v in S
  {
    var p :| WalkFromTo(g, p, u, v);
    ClosedSetTrapsWalk(g, S, p);
  }

  ghost predicate Distinct<T(!new)>(s: seq<T>) {
    forall i, j :: 0 <= i < j < |s| ==> s[i] != s[j]
  }

  function Elements<T>(s: seq<T>): set<T> {
    set x | x in s
  }

  lemma {:induction false} DistinctLength<T(!new)>(s: seq<T>)
    requires Distinct(s)
    ensures |Elements(s)| == |s|
  {
    if |s| > 0 {
      var t := s[1..];
      DistinctLength(t);
      assert s == [s[0]] + t;
      assert Elements(s) == {s[0]} + Elements(t);
    }
  }

  lemma {:induction false} DistinctCounts<T(!new)>(s: seq<T>)
    ensures Distinct(s) <==> forall x :: multiset(s)[x] <= 1
  {
    if Distinct(s) {
      if s != [] {
        DistinctCounts(s[1..]);
        assert s == [s[0]] + s[1..];
      }
    } else {
      var i, j :| 0 <= i < j < |s| && s[i] == s[j];
      assert s == s[..j] + s[j..] && s[j..] == [s[j]] + s[j + 1..];
      assert s[..j][i] in multiset(s[..j]);
      assert multiset(s)[s[i]] >= 2;
    }
  }

  lemma DistinctPermutation<T(!new)>(a: seq<T>, b: seq<T>)
    requires Distinct(a) && multiset(a) == multiset(b)
    ensures Distinct(b)
  {
    DistinctCounts(a);
    DistinctCounts(b);
  }

  lemma {:induction false} ElementsSize<T(!new)>(s: seq<T>)
    ensures |Elements(s)| <= |s|
    ensures |Elements(s)| == |s| ==> Distinct(s)
  {
    if s != [] {
      var t := s[1..];
      ElementsSize(t);
      assert s == [s[0]] + t;
      assert Elements(s) == {s[0]} + Elements(t);
      if s[0] in t {
        assert Elements(s) == Elements(t);
      }
    }
  }

  lemma SubsetSize<T>(a: set<T>, b: set<T>)
    requires a <= b
    ensures |a| <= |b|
    ensures |a| == |b| ==> a == b
  {
    assert b == a + (b - a);
  }

  lemma DistinctFits<T(!new)>(s: seq<T>, S: set<T>)
    requires Distinct(s) && forall i :: 0 <= i < |s| ==> s[i] in S
    ensures |s| <= |S|
  {
    DistinctLength(s);
    SubsetSize(Elements(s), S);
  }

  lemma {:induction false} WalkSuffix<T(!new)>(g: Digraph<T>, p: seq<T>, k: nat)
    requires Walk(g, p) && k < |p|
    ensures Walk(g, p[k..])
  {
    if k > 0 {
      WalkSuffix(g, p[1..], k - 1);
      assert p[1..][k - 1..] == p[k..];
    }
  }

  ghost predicate HasSuccessorIn<T(!new)>(g: Digraph<T>, S: set<T>, x: T) {
    exists y :: y in S && Edge(g, x, y)
  }

  ghost predicate EndlessIn<T(!new)>(g: Digraph<T>, S: set<T>) {
    forall x {:trigger HasSuccessorIn(g, S, x)} :: x in S ==> HasSuccessorIn(g, S, x)
  }

  /** In a finite non-empty set where every node has a successor inside the
      set, the start reaches a node that lies on a cycle. */
  lemma EndlessSetHasCycle<T(!new)>(g: Digraph<T>, S: set<T>, start: T) returns (c: T)
    requires start in S && EndlessIn(g, S)
    ensures c in S && OnCycle(g, c) && Reach(g, start, c)
  {
    c := ExtendUntilRepeat(g, S, [start]);
  }

  lemma {:induction false} ExtendUntilRepeat<T(!new)>(g: Digraph<T>, S: set<T>, p: seq<T>) returns (c: T)
    requires Walk(g, p) && Distinct(p) && EndlessIn(g, S)
    requires forall i :: 0 <= i < |p| ==> p[i] in S
    ensures c in S && OnCycle(g, c) && Reach(g, p[0], c)
    decreases |S| - |p|
  {
    DistinctFits(p, S);
    var last := p[|p| - 1];
    assert HasSuccessorIn(g, S, last);
    var y :| y in S && Edge(g, last, y);
    var q := p + [y];
    assert Walk(g, [last, y]);
    JoinWalks(g, p, [last, y]);
    assert p + [last, y][1..] == q;
    if k :| 0 <= k < |p| && p[k] == y {
      WalkSuffix(g, q, k);
      assert WalkFromTo(g, q[k..], y, y);
      assert WalkFromTo(g, q, p[0], y);
      c := y;
    } else {
      DistinctFits(q, S);
      c := ExtendUntilRepeat(g, S, q);
    }
  }

  /** Graphs with the same edges have the same walks. */
  lemma {:induction false} SameWalks<T(!new)>(g: Digraph<T>, h: Digraph<T>, p: seq<T>)
    requires forall a, b :: Edge(g, a, b) <==> Edge(h, a, b)
    ensures Walk(g, p) <==> Walk(h, p)
  {
    if |p| > 1 {
      SameWalks(g, h, p[1..]);
    }
  }
}
