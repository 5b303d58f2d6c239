/** The iterative strongly-connected-components search of the bead graph. */
module Tarjan {
  import opened Graphs
  import opened Options

  datatype NodeState = NodeState(index: nat, lowlink: nat, onStack: bool)

  /** One entry of the explicit call stack. */
  datatype Frame<T> = Frame(node: T, neighborIdx: nat, callerNode: Option<T>)

  /** A snapshot of the local variables of the search. Two fields are proof
      devices: `order` lists the nodes in the order they were entered, and
      `done` maps each finished node to the position of its component. */
  datatype Search<T> = Search(
    state: map<T, NodeState>,
    stack: seq<T>,
    sccs: seq<seq<T>>,
    calls: seq<Frame<T>>,
    order: seq<T>,
    done: map<T, nat>)
  {
    ghost predicate OnStack(x: T) { x in state && state[x].onStack }

    ghost predicate StackBefore(i: nat, j: nat)
      requires i < |stack| && j < |stack|
    {
      stack[i] in state && stack[j] in state && state[stack[i]].index < state[stack[j]].index
    }

    ghost predicate FrameBefore(d: nat, e: nat)
      requires d < |calls| && e < |calls|
    {
      calls[d].node in state && calls[e].node in state && state[calls[d].node].index < state[calls[e].node].index
    }

    ghost predicate CallerLinked(d: nat)
      requires d < |calls|
    {
      calls[d].callerNode == if d == 0 then None else Some(calls[d - 1].node)
    }

    /** Active: the node still has a frame on the call stack. */
    ghost predicate Active(x: T) { exists d :: 0 <= d < |calls| && calls[d].node == x }

    /** `x` was entered while frame `d` was the innermost frame that is still open. */
    ghost predicate InSegment(d: nat, x: T)
      requires d < |calls|
    {
      && OnStack(x) && OnStack(calls[d].node)
      && state[calls[d].node].index < state[x].index
      && (d + 1 < |calls| ==> OnStack(calls[d + 1].node) && state[x].index < state[calls[d + 1].node].index)
    }
  }

  /** The stack lists exactly the on-stack nodes, in the order they were entered. */
  ghost predicate StackInv<T(!new)>(s: Search<T>) {
    && (forall x :: s.OnStack(x) <==> x in s.stack)
    && (forall i, j {:trigger s.StackBefore(i, j)} :: 0 <= i < j < |s.stack| ==> s.StackBefore(i, j))
  }

  ghost predicate IndexInv<T(!new)>(s: Search<T>) {
    forall x {:trigger s.state[x]} :: x in s.state ==>
      s.state[x].lowlink <= s.state[x].index < |s.order| && s.order[s.state[x].index] == x
  }

  ghost predicate CallsInv<T(!new)>(g: Digraph<T>, s: Search<T>) {
    && (forall d {:trigger s.calls[d]} :: 0 <= d < |s.calls| ==>
          && s.OnStack(s.calls[d].node)
          && s.calls[d].neighborIdx <= |Neighbours(g, s.calls[d].node)|)
    && (forall d, e {:trigger s.FrameBefore(d, e)} :: 0 <= d < e < |s.calls| ==> s.FrameBefore(d, e))
    && (forall d {:trigger s.CallerLinked(d)} :: 0 <= d < |s.calls| ==> s.CallerLinked(d))
  }

  /** Some open frame at or before `x` can be reached from `x`. */
  ghost predicate LeadsBack<T(!new)>(g: Digraph<T>, s: Search<T>, x: T)
    requires x in s.state
  {
    exists d {:trigger s.calls[d]} :: 0 <= d < |s.calls| && s.calls[d].node in s.state
      && s.state[s.calls[d].node].index <= s.state[x].index && Reach(g, x, s.calls[d].node)
  }

  ghost predicate ReachInv<T(!new)>(g: Digraph<T>, s: Search<T>) {
    && (forall x, y {:trigger Reach(g, x, y)} ::
          s.OnStack(x) && s.OnStack(y) && s.state[x].index <= s.state[y].index ==> Reach(g, x, y))
    && (forall x {:trigger LeadsBack(g, s, x)} :: s.OnStack(x) ==> LeadsBack(g, s, x))
  }

  /** No edge leaves the explored part except from frames that are still scanning. */
  ghost predicate ExploredInv<T(!new)>(g: Digraph<T>, s: Search<T>) {
    && (forall x, y {:trigger Edge(g, x, y)} :: s.OnStack(x) && !s.Active(x) && Edge(g, x, y) ==> y in s.state)
    && (forall d, j {:trigger Neighbours(g, s.calls[d].node)[j]} ::
          0 <= d < |s.calls| && 0 <= j < s.calls[d].neighborIdx && j < |Neighbours(g, s.calls[d].node)| ==>
            Neighbours(g, s.calls[d].node)[j] in s.state)
  }

  /** The lowlink of an open frame is the entry index of an on-stack node it reaches. */
  ghost predicate LowAttained<T(!new)>(g: Digraph<T>, s: Search<T>, d: nat)
    requires d < |s.calls| && s.calls[d].node in s.state
  {
    exists y {:trigger s.OnStack(y)} ::
      s.OnStack(y) && s.state[y].index == s.state[s.calls[d].node].lowlink && Reach(g, s.calls[d].node, y)
  }

  /** The lowlink of frame `d` bounds every back edge seen in its segment. */
  ghost predicate LowBounds<T(!new)>(g: Digraph<T>, s: Search<T>, d: nat)
    requires d < |s.calls| && s.calls[d].node in s.state
  {
    var u := s.calls[d].node;
    && (forall x, y {:trigger Edge(g, x, y)} ::
          s.InSegment(d, x) && Edge(g, x, y) && s.OnStack(y) ==> s.state[u].lowlink <= s.state[y].index)
    && (forall j {:trigger Neighbours(g, u)[j]} ::
          0 <= j < s.calls[d].neighborIdx && j < |Neighbours(g, u)| && s.OnStack(Neighbours(g, u)[j]) ==>
            s.state[u].lowlink <= s.state[Neighbours(g, u)[j]].index)
  }

  ghost predicate LowInv<T(!new)>(g: Digraph<T>, s: Search<T>) {
    && (forall d {:trigger LowAttained(g, s, d)} :: 0 <= d < |s.calls| ==>
          s.calls[d].node in s.state && LowAttained(g, s, d))
    && (forall d {:trigger LowBounds(g, s, d)} :: 0 <= d < |s.calls| ==>
          s.calls[d].node in s.state && LowBounds(g, s, d))
  }

  /** A strongly connected component: everything mutually reachable with its members. */
  ghost predicate IsComponent<T(!new)>(g: Digraph<T>, c: seq<T>) {
    && |c| > 0 && Distinct(c)
    && forall x, y :: x in c ==> (y in c <==> Mutual(g, x, y))
  }

  /** A node is finished when it was entered and has left the stack. */
  ghost predicate Retired<T(!new)>(s: Search<T>) {
    forall x :: x in s.done <==> x in s.state && !s.OnStack(x)
  }

  /** `done` says in which component each finished node is listed. */
  ghost predicate Placed<T(!new)>(s: Search<T>) {
    && (forall x {:trigger s.done[x]} :: x in s.done ==> s.done[x] < |s.sccs| && x in s.sccs[s.done[x]])
    && (forall i, x {:trigger x in s.sccs[i]} :: 0 <= i < |s.sccs| && x in s.sccs[i] ==> x in s.done && s.done[x] == i)
  }

  ghost predicate DoneInv<T(!new)>(g: Digraph<T>, s: Search<T>) {
    && Placed(s)
    && (forall i :: 0 <= i < |s.sccs| ==> IsComponent(g, s.sccs[i]))
    && (forall x, y {:trigger Edge(g, x, y)} :: x in s.done && Edge(g, x, y) ==> y in s.done && s.done[y] <= s.done[x])
  }

  ghost predicate Inv<T(!new)>(g: Digraph<T>, s: Search<T>) {
    StackInv(s) && IndexInv(s) && CallsInv(g, s) && ReachInv(g, s) && ExploredInv(g, s) && LowInv(g, s) && Retired(s)
        && DoneInv(g, s)
  }

  // ---- Entering a node --------------------------------------------------

  /** `t` is `s` after the innermost frame steps over its next edge into the new
      node `w`, or after a root `w` is entered on an empty call stack. */
  ghost predicate Enters<T(!new)>(g: Digraph<T>, s: Search<T>, w: T, t: Search<T>) {
    && w !in s.state
    && t.state == s.state[w := NodeState(|s.order|, |s.order|, true)]
    && t.stack == s.stack + [w]
    && t.order == s.order + [w]
    && t.sccs == s.sccs && t.done == s.done
    && |t.calls| == |s.calls| + 1
    && EntersFrames(g, s, w, t)
  }

  ghost predicate EntersFrames<T(!new)>(g: Digraph<T>, s: Search<T>, w: T, t: Search<T>)
    requires |t.calls| == |s.calls| + 1
  {
    var n := |s.calls|;
    && t.calls[n] == Frame(w, 0, if n == 0 then None else Some(s.calls[n - 1].node))
    && (forall d {:trigger t.calls[d]} :: 0 <= d < n - 1 ==> t.calls[d] == s.calls[d])
    && (n > 0 ==>
          var top := s.calls[n - 1];
          && top.neighborIdx < |Neighbours(g, top.node)| && Neighbours(g, top.node)[top.neighborIdx] == w
          && t.calls[n - 1] == top.(neighborIdx := top.neighborIdx + 1))
  }

  lemma EnterKeepsStack<T(!new)>(g: Digraph<T>, s: Search<T>, w: T, t: Search<T>)
    requires IndexInv(s) && StackInv(s) && Enters(g, s, w, t)
    ensures StackInv(t)
  {
    forall i, j | 0 <= i < j < |t.stack|
      ensures t.StackBefore(i, j)
    {
      assert s.OnStack(s.stack[i]);
      if j < |s.stack| {
        assert s.OnStack(s.stack[j]);
        assert s.StackBefore(i, j);
      }
    }
  }

  lemma EnterKeepsIndex<T(!new)>(g: Digraph<T>, s: Search<T>, w: T, t: Search<T>)
    requires IndexInv(s) && Enters(g, s, w, t)
    ensures IndexInv(t)
  {
  }

  lemma EnterKeepsCalls<T(!new)>(g: Digraph<T>, s: Search<T>, w: T, t: Search<T>)
    requires IndexInv(s) && CallsInv(g, s) && Enters(g, s, w, t)
    ensures CallsInv(g, t)
  {
    forall d, e | 0 <= d < e < |t.calls|
      ensures t.FrameBefore(d, e)
    {
      assert s.OnStack(s.calls[d].node);
      assert t.calls[d].node == s.calls[d].node;
      if e < |s.calls| {
        assert s.FrameBefore(d, e);
        assert t.calls[e].node == s.calls[e].node;
      }
    }
    forall d | 0 <= d < |t.calls|
      ensures t.CallerLinked(d)
    {
      assert d < |s.calls| ==> s.CallerLinked(d) && t.calls[d].callerNode == s.calls[d].callerNode;
      assert d > 0 ==> t.calls[d - 1].node == s.calls[d - 1].node;
    }
  }

  /** Everything on the stack reaches the node that is entered. */
  lemma StackReachesEntered<T(!new)>(g: Digraph<T>, s: Search<T>, w: T, t: Search<T>, x: T)
    requires IndexInv(s) && CallsInv(g, s) && ReachInv(g, s) && Enters(g, s, w, t)
    requires s.OnStack(x)
    ensures Reach(g, x, w)
  {
    var n := |s.calls|;
    assert LeadsBack(g, s, x);
    var u := s.calls[n - 1].node;
    var d :| 0 <= d < n && s.state[s.calls[d].node].index <= s.state[x].index && Reach(g, x, s.calls[d].node);
    assert d < n - 1 ==> s.FrameBefore(d, n - 1);
    assert Reach(g, s.calls[d].node, u);
    ReachTransitive(g, x, s.calls[d].node, u);
    ReachEdge(g, u, w);
    ReachTransitive(g, x, u, w);
  }

  lemma EnterKeepsReach<T(!new)>(g: Digraph<T>, s: Search<T>, w: T, t: Search<T>)
    requires IndexInv(s) && CallsInv(g, s) && ReachInv(g, s) && Enters(g, s, w, t)
    ensures ReachInv(g, t)
  {
    var n := |s.calls|;
    ReachSelf(g, w);
    forall x, y | t.OnStack(x) && t.OnStack(y) && t.state[x].index <= t.state[y].index
      ensures Reach(g, x, y)
    {
      if y == w && x != w {
        StackReachesEntered(g, s, w, t, x);
      }
    }
    forall x | t.OnStack(x)
      ensures LeadsBack(g, t, x)
    {
      if x == w {
        assert t.calls[n].node == w;
      } else {
        assert LeadsBack(g, s, x);
        var d :| 0 <= d < n && s.state[s.calls[d].node].index <= s.state[x].index && Reach(g, x, s.calls[d].node);
        assert t.calls[d].node == s.calls[d].node;
      }
    }
  }

  lemma EnterKeepsExplored<T(!new)>(g: Digraph<T>, s: Search<T>, w: T, t: Search<T>)
    requires ExploredInv(g, s) && Enters(g, s, w, t)
    ensures ExploredInv(g, t)
  {
    var n := |s.calls|;
    forall x, y | t.OnStack(x) && !t.Active(x) && Edge(g, x, y)
      ensures y in t.state
    {
      assert t.calls[n].node == w;
      forall d | 0 <= d < n ensures s.calls[d].node != x {
        assert t.calls[d].node == s.calls[d].node;
      }
    }
    forall d, j | 0 <= d < |t.calls| && 0 <= j < t.calls[d].neighborIdx && j < |Neighbours(g, t.calls[d].node)|
      ensures Neighbours(g, t.calls[d].node)[j] in t.state
    {
      assert d < n ==> t.calls[d].node == s.calls[d].node;
    }
  }

  lemma EnterKeepsLow<T(!new)>(g: Digraph<T>, s: Search<T>, w: T, t: Search<T>)
    requires IndexInv(s) && CallsInv(g, s) && LowInv(g, s) && Enters(g, s, w, t)
    ensures LowInv(g, t)
  {
    var n := |s.calls|;
    forall d | 0 <= d < |t.calls|
      ensures t.calls[d].node in t.state && LowAttained(g, t, d)
    {
      if d == n {
        ReachSelf(g, w);
        assert t.OnStack(w);
      } else {
        assert t.calls[d].node == s.calls[d].node;
        assert LowAttained(g, s, d);
        var y :| s.OnStack(y) && s.state[y].index == s.state[s.calls[d].node].lowlink && Reach(g, s.calls[d].node, y);
        assert t.OnStack(y);
      }
    }
    forall d | 0 <= d < |t.calls|
      ensures t.calls[d].node in t.state && LowBounds(g, t, d)
    {
      EnterKeepsLowBounds(g, s, w, t, d);
    }
  }

  lemma EnterKeepsLowBounds<T(!new)>(g: Digraph<T>, s: Search<T>, w: T, t: Search<T>, d: nat)
    requires IndexInv(s) && CallsInv(g, s) && Enters(g, s, w, t)
    requires d < |t.calls| && t.calls[d].node in t.state
    requires d < |s.calls| ==> s.calls[d].node in s.state && LowBounds(g, s, d)
    ensures LowBounds(g, t, d)
  {
    var n := |s.calls|;
    var u := t.calls[d].node;
    assert d < n ==> u == s.calls[d].node && s.OnStack(s.calls[d].node);
    assert d + 1 < n ==> t.calls[d + 1].node == s.calls[d + 1].node;
    forall x, y | t.InSegment(d, x) && Edge(g, x, y) && t.OnStack(y)
      ensures t.state[u].lowlink <= t.state[y].index
    {
      if d < n && y != w {
        assert s.InSegment(d, x);
      }
    }
  }

  lemma EnterKeepsRetired<T(!new)>(g: Digraph<T>, s: Search<T>, w: T, t: Search<T>)
    requires Retired(s) && Enters(g, s, w, t)
    ensures Retired(t)
  {
    forall x ensures t.OnStack(x) <==> s.OnStack(x) || x == w {}
  }

  lemma EnterKeepsDone<T(!new)>(g: Digraph<T>, s: Search<T>, w: T, t: Search<T>)
    requires DoneInv(g, s) && Enters(g, s, w, t)
    ensures DoneInv(g, t)
  {
  }

  // ---- Looking at an edge to a node that was entered before ---------------

  /** `t` keeps the frames of `s` below the innermost one. */
  ghost predicate SameOuterFrames<T(!new)>(s: Search<T>, t: Search<T>)
    requires |s.calls| > 0
  {
    && |t.calls| >= |s.calls| - 1
    && forall d {:trigger t.calls[d]} :: 0 <= d < |s.calls| - 1 ==> t.calls[d] == s.calls[d]
  }

  /** `t` is `s` after the innermost frame looks at its next neighbour, which was
      entered before: the lowlink drops to that neighbour's index if it is on the stack. */
  ghost predicate Scans<T(!new)>(g: Digraph<T>, s: Search<T>, t: Search<T>) {
    && t.stack == s.stack && t.order == s.order && t.sccs == s.sccs && t.done == s.done
    && |t.calls| == |s.calls| > 0 && SameOuterFrames(s, t)
    && var n := |s.calls|;
       var top := s.calls[n - 1];
       var u := top.node;
       && u in s.state
       && top.neighborIdx < |Neighbours(g, u)|
       && t.calls[n - 1] == top.(neighborIdx := top.neighborIdx + 1)
       && var w := Neighbours(g, u)[top.neighborIdx];
          && w in s.state
          && t.state == s.state[u := s.state[u].(lowlink :=
               if s.state[w].onStack && s.state[w].index < s.state[u].lowlink then s.state[w].index
               else s.state[u].lowlink)]
  }

  lemma ScanKeepsStack<T(!new)>(g: Digraph<T>, s: Search<T>, t: Search<T>)
    requires IndexInv(s) && StackInv(s) && Scans(g, s, t)
    ensures IndexInv(t) && StackInv(t)
  {
    forall x ensures t.OnStack(x) <==> s.OnStack(x) {}
    forall i, j | 0 <= i < j < |t.stack| ensures t.StackBefore(i, j) {
      assert s.StackBefore(i, j);
    }
  }

  lemma ScanKeepsCalls<T(!new)>(g: Digraph<T>, s: Search<T>, t: Search<T>)
    requires CallsInv(g, s) && Scans(g, s, t)
    ensures CallsInv(g, t)
  {
    forall d | 0 <= d < |t.calls| ensures t.CallerLinked(d) {
      assert s.CallerLinked(d);
      assert d > 0 ==> t.calls[d - 1] == s.calls[d - 1];
    }
    forall d, e | 0 <= d < e < |t.calls| ensures t.FrameBefore(d, e) {
      assert s.FrameBefore(d, e);
      assert t.calls[d].node == s.calls[d].node && t.calls[e].node == s.calls[e].node;
    }
  }

  lemma ScanKeepsReach<T(!new)>(g: Digraph<T>, s: Search<T>, t: Search<T>)
    requires ReachInv(g, s) && Scans(g, s, t)
    ensures ReachInv(g, t)
  {
    forall x | t.OnStack(x) ensures LeadsBack(g, t, x) {
      assert LeadsBack(g, s, x);
      var d :| 0 <= d < |s.calls| && s.calls[d].node in s.state
        && s.state[s.calls[d].node].index <= s.state[x].index && Reach(g, x, s.calls[d].node);
      assert t.calls[d].node == s.calls[d].node;
    }
  }

  lemma ScanKeepsExplored<T(!new)>(g: Digraph<T>, s: Search<T>, t: Search<T>)
    requires ExploredInv(g, s) && Scans(g, s, t)
    ensures ExploredInv(g, t)
  {
    forall x, y | t.OnStack(x) && !t.Active(x) && Edge(g, x, y)
      ensures y in t.state
    {
      forall d | 0 <= d < |s.calls| ensures s.calls[d].node != x {
        assert t.calls[d].node == s.calls[d].node;
      }
    }
    forall d, j | 0 <= d < |t.calls| && 0 <= j < t.calls[d].neighborIdx && j < |Neighbours(g, t.calls[d].node)|
      ensures Neighbours(g, t.calls[d].node)[j] in t.state
    {
      assert t.calls[d].node == s.calls[d].node;
    }
  }

  lemma ScanKeepsLow<T(!new)>(g: Digraph<T>, s: Search<T>, t: Search<T>)
    requires IndexInv(s) && CallsInv(g, s) && LowInv(g, s) && Scans(g, s, t)
    ensures LowInv(g, t)
  {
    var n := |s.calls|;
    forall d | 0 <= d < |t.calls|
      ensures t.calls[d].node in t.state && LowAttained(g, t, d)
      ensures LowBounds(g, t, d)
    {
      assert t.calls[d].node == s.calls[d].node;
      assert d < n - 1 ==> s.FrameBefore(d, n - 1);
      assert LowAttained(g, s, d);
      ScanKeepsAttained(g, s, t, d);
      assert LowBounds(g, s, d);
      ScanKeepsBounds(g, s, t, d);
    }
  }

  lemma ScanKeepsAttained<T(!new)>(g: Digraph<T>, s: Search<T>, t: Search<T>, d: nat)
    requires Scans(g, s, t) && d < |s.calls| && t.calls[d].node == s.calls[d].node
    requires s.calls[d].node in s.state && LowAttained(g, s, d)
    requires d < |s.calls| - 1 ==> s.calls[d].node != s.calls[|s.calls| - 1].node
    ensures LowAttained(g, t, d)
  {
    var u := s.calls[d].node;
    var y :| s.OnStack(y) && s.state[y].index == s.state[u].lowlink && Reach(g, u, y);
    assert t.OnStack(y);
    if t.state[u].lowlink != s.state[u].lowlink {
      var w := Neighbours(g, u)[s.calls[d].neighborIdx];
      ReachEdge(g, u, w);
      assert t.OnStack(w);
    }
  }

  lemma ScanKeepsBounds<T(!new)>(g: Digraph<T>, s: Search<T>, t: Search<T>, d: nat)
    requires Scans(g, s, t) && d < |s.calls|
    requires s.calls[d].node in s.state && LowBounds(g, s, d)
    ensures LowBounds(g, t, d)
  {
    var u := s.calls[d].node;
    assert t.calls[d].node == u;
    assert d + 1 < |s.calls| ==> t.calls[d + 1].node == s.calls[d + 1].node;
    forall x, y | t.InSegment(d, x) && Edge(g, x, y) && t.OnStack(y)
      ensures t.state[u].lowlink <= t.state[y].index
    {
      assert s.InSegment(d, x);
    }
  }

  lemma ScanKeepsRetired<T(!new)>(g: Digraph<T>, s: Search<T>, t: Search<T>)
    requires Retired(s) && Scans(g, s, t)
    ensures Retired(t)
  {
    forall x ensures t.OnStack(x) <==> s.OnStack(x) {}
  }

  lemma ScanKeepsDone<T(!new)>(g: Digraph<T>, s: Search<T>, t: Search<T>)
    requires DoneInv(g, s) && Scans(g, s, t)
    ensures DoneInv(g, t)
  {
  }

  // ---- Leaving a node that is not the root of its component ---------------

  /** `t` is `s` after the exhausted innermost frame returns and hands its lowlink
      to its caller, the node itself staying on the stack. */
  ghost predicate Returns<T(!new)>(g: Digraph<T>, s: Search<T>, t: Search<T>) {
    && t.stack == s.stack && t.order == s.order && t.sccs == s.sccs && t.done == s.done
    && |t.calls| == |s.calls| - 1 > 0 && SameOuterFrames(s, t)
    && var n := |s.calls|;
       var u, v := s.calls[n - 1].node, s.calls[n - 2].node;
       && u in s.state && v in s.state
       && s.calls[n - 1].neighborIdx == |Neighbours(g, u)|
       && s.state[u].lowlink < s.state[u].index
       && t.state == s.state[v := s.state[v].(lowlink :=
            if s.state[u].lowlink < s.state[v].lowlink then s.state[u].lowlink else s.state[v].lowlink)]
  }

  lemma ReturnKeepsShape<T(!new)>(g: Digraph<T>, s: Search<T>, t: Search<T>)
    requires IndexInv(s) && StackInv(s) && CallsInv(g, s) && Returns(g, s, t)
    ensures IndexInv(t) && StackInv(t) && CallsInv(g, t)
  {
    forall x ensures t.OnStack(x) <==> s.OnStack(x) {}
    forall i, j | 0 <= i < j < |t.stack| ensures t.StackBefore(i, j) {
      assert s.StackBefore(i, j);
    }
    forall d | 0 <= d < |t.calls| ensures t.CallerLinked(d) {
      assert s.CallerLinked(d) && t.calls[d] == s.calls[d];
      assert d > 0 ==> t.calls[d - 1] == s.calls[d - 1];
    }
    forall d, e | 0 <= d < e < |t.calls| ensures t.FrameBefore(d, e) {
      assert s.FrameBefore(d, e);
      assert t.calls[d] == s.calls[d] && t.calls[e] == s.calls[e];
    }
  }

  /** The node of the frame that returns leads back to a frame below it. */
  lemma ReturnedLeadsBack<T(!new)>(g: Digraph<T>, s: Search<T>, t: Search<T>, u: T)
    requires CallsInv(g, s) && ReachInv(g, s) && LowInv(g, s) && Returns(g, s, t)
    requires u == s.calls[|s.calls| - 1].node
    ensures u in s.state && LeadsBack(g, t, u)
  {
    var n := |s.calls|;
    assert LowAttained(g, s, n - 1);
    var y :| s.OnStack(y) && s.state[y].index == s.state[u].lowlink && Reach(g, u, y);
    assert LeadsBack(g, s, y);
    var e :| 0 <= e < n && s.calls[e].node in s.state
      && s.state[s.calls[e].node].index <= s.state[y].index && Reach(g, y, s.calls[e].node);
    ReachTransitive(g, u, y, s.calls[e].node);
    assert t.calls[e] == s.calls[e];
  }

  /** Every on-stack node still leads back to an open frame after the return. */
  lemma ReturnLeadsBack<T(!new)>(g: Digraph<T>, s: Search<T>, t: Search<T>, x: T)
    requires CallsInv(g, s) && ReachInv(g, s) && LowInv(g, s) && Returns(g, s, t)
    requires s.OnStack(x)
    ensures LeadsBack(g, t, x)
  {
    var n := |s.calls|;
    assert LeadsBack(g, s, x);
    var d :| 0 <= d < n && s.calls[d].node in s.state
      && s.state[s.calls[d].node].index <= s.state[x].index && Reach(g, x, s.calls[d].node);
    if d == n - 1 {
      var u := s.calls[n - 1].node;
      ReturnedLeadsBack(g, s, t, u);
      var e :| 0 <= e < |t.calls| && t.calls[e].node in t.state
        && t.state[t.calls[e].node].index <= t.state[u].index && Reach(g, u, t.calls[e].node);
      ReachTransitive(g, x, u, t.calls[e].node);
    } else {
      assert t.calls[d] == s.calls[d];
    }
  }

  lemma ReturnKeepsReach<T(!new)>(g: Digraph<T>, s: Search<T>, t: Search<T>)
    requires CallsInv(g, s) && ReachInv(g, s) && LowInv(g, s) && Returns(g, s, t)
    ensures ReachInv(g, t)
  {
    forall x | t.OnStack(x) ensures LeadsBack(g, t, x) {
      ReturnLeadsBack(g, s, t, x);
    }
  }

  lemma ReturnKeepsExplored<T(!new)>(g: Digraph<T>, s: Search<T>, t: Search<T>)
    requires ExploredInv(g, s) && Returns(g, s, t)
    ensures ExploredInv(g, t)
  {
    var n := |s.calls|;
    forall x, y | t.OnStack(x) && !t.Active(x) && Edge(g, x, y)
      ensures y in t.state
    {
      forall d | 0 <= d < n - 1 ensures s.calls[d].node != x {
        assert t.calls[d] == s.calls[d];
      }
      if x == s.calls[n - 1].node {
        var j :| 0 <= j < |Neighbours(g, x)| && Neighbours(g, x)[j] == y;
        assert Neighbours(g, s.calls[n - 1].node)[j] in s.state;
      }
    }
    forall d, j | 0 <= d < |t.calls| && 0 <= j < t.calls[d].neighborIdx && j < |Neighbours(g, t.calls[d].node)|
      ensures Neighbours(g, t.calls[d].node)[j] in t.state
    {
      assert t.calls[d].node == s.calls[d].node;
    }
  }

  lemma ReturnKeepsLow<T(!new)>(g: Digraph<T>, s: Search<T>, t: Search<T>)
    requires IndexInv(s) && CallsInv(g, s) && ReachInv(g, s) && LowInv(g, s) && Returns(g, s, t)
    ensures LowInv(g, t)
  {
    var n := |s.calls|;
    var u := s.calls[n - 1].node;
    forall d | 0 <= d < |t.calls|
      ensures t.calls[d].node in t.state && LowAttained(g, t, d)
      ensures LowBounds(g, t, d)
    {
      assert t.calls[d] == s.calls[d];
      assert LowAttained(g, s, d) && LowAttained(g, s, n - 1);
      assert d < n - 2 ==> s.FrameBefore(d, n - 2);
      assert s.FrameBefore(n - 2, n - 1);
      assert Reach(g, s.calls[n - 2].node, u);
      ReturnKeepsAttained(g, s, t, d);
      assert LowBounds(g, s, d) && LowBounds(g, s, n - 1);
      ReturnKeepsBounds(g, s, t, d);
    }
  }

  lemma ReturnKeepsAttained<T(!new)>(g: Digraph<T>, s: Search<T>, t: Search<T>, d: nat)
    requires Returns(g, s, t) && d < |s.calls| - 1
    requires s.calls[d].node in s.state && LowAttained(g, s, d) && LowAttained(g, s, |s.calls| - 1)
    requires d < |s.calls| - 2 ==> s.calls[d].node != s.calls[|s.calls| - 2].node
    requires Reach(g, s.calls[|s.calls| - 2].node, s.calls[|s.calls| - 1].node)
    ensures t.calls[d].node in t.state && LowAttained(g, t, d)
  {
    var n := |s.calls|;
    var v, u := s.calls[d].node, s.calls[n - 1].node;
    assert t.calls[d] == s.calls[d];
    var y :| s.OnStack(y) && s.state[y].index == s.state[v].lowlink && Reach(g, v, y);
    assert t.OnStack(y);
    if t.state[v].lowlink != s.state[v].lowlink {
      var z :| s.OnStack(z) && s.state[z].index == s.state[u].lowlink && Reach(g, u, z);
      ReachTransitive(g, v, u, z);
      assert t.OnStack(z);
    }
  }

  lemma ReturnKeepsBounds<T(!new)>(g: Digraph<T>, s: Search<T>, t: Search<T>, d: nat)
    requires IndexInv(s) && CallsInv(g, s) && Returns(g, s, t) && d < |s.calls| - 1
    requires s.calls[d].node in s.state && LowBounds(g, s, d) && LowBounds(g, s, |s.calls| - 1)
    requires t.calls[d].node in t.state
    ensures LowBounds(g, t, d)
  {
    var n := |s.calls|;
    var v, u := s.calls[d].node, s.calls[n - 1].node;
    assert t.calls[d] == s.calls[d];
    assert d + 1 < n - 1 ==> t.calls[d + 1] == s.calls[d + 1];
    forall x, y | t.InSegment(d, x) && Edge(g, x, y) && t.OnStack(y)
      ensures t.state[v].lowlink <= t.state[y].index
    {
      if d < n - 2 || s.state[x].index < s.state[u].index {
        assert s.InSegment(d, x);
      } else if s.state[x].index > s.state[u].index {
        assert s.InSegment(n - 1, x);
      } else {
        assert x == u;
        var j :| 0 <= j < |Neighbours(g, u)| && Neighbours(g, u)[j] == y;
      }
    }
  }

  lemma ReturnKeepsRetired<T(!new)>(g: Digraph<T>, s: Search<T>, t: Search<T>)
    requires Retired(s) && Returns(g, s, t)
    ensures Retired(t)
  {
    forall x ensures t.OnStack(x) <==> s.OnStack(x) {}
  }

  lemma ReturnKeepsDone<T(!new)>(g: Digraph<T>, s: Search<T>, t: Search<T>)
    requires DoneInv(g, s) && Returns(g, s, t)
    ensures DoneInv(g, t)
  {
  }

  // ---- Leaving the root of a component ------------------------------------

  /** `c` lists the part of the stack from the innermost frame's node upwards. */
  ghost predicate IsTopSegment<T(!new)>(s: Search<T>, c: seq<T>)
    requires |s.calls| > 0
  {
    var u := s.calls[|s.calls| - 1].node;
    && u in s.state && u in c && Distinct(c)
    && forall x {:trigger x in c} :: x in c <==> s.OnStack(x) && s.state[u].index <= s.state[x].index
  }

  ghost predicate Exhausted<T(!new)>(g: Digraph<T>, s: Search<T>) {
    && |s.calls| > 0
    && var top := s.calls[|s.calls| - 1];
       top.node in s.state && top.neighborIdx == |Neighbours(g, top.node)|
  }

  /** `t` is `s` after the exhausted innermost frame, whose lowlink equals its index,
      returns and its segment `c` is popped off the stack as a component. */
  ghost predicate Completes<T(!new)>(g: Digraph<T>, s: Search<T>, c: seq<T>, t: Search<T>) {
    && Exhausted(g, s) && IsTopSegment(s, c)
    && LowIsIndex(s)
    && |t.calls| == |s.calls| - 1 && SameOuterFrames(s, t)
    && t.order == s.order && t.stack <= s.stack
    && (forall x {:trigger x in t.stack} :: x in t.stack <==> x in s.stack && x !in c)
    && t.state.Keys == s.state.Keys
    && (forall x {:trigger t.state[x]} {:trigger s.state[x]} :: x in s.state ==>
          t.state[x] == s.state[x].(onStack := s.state[x].onStack && x !in c))
    && t.sccs == s.sccs + [c]
    && (forall x {:trigger x in t.done} :: x in t.done <==> x in s.done || x in c)
    && (forall x {:trigger t.done[x]} :: x in t.done ==> t.done[x] == if x in s.done then s.done[x] else |s.sccs|)
  }

  lemma CompletionKeepsStack<T(!new)>(g: Digraph<T>, s: Search<T>, c: seq<T>, t: Search<T>)
    requires IndexInv(s) && StackInv(s) && Completes(g, s, c, t)
    ensures IndexInv(t) && StackInv(t)
  {
    forall x ensures t.OnStack(x) <==> x in t.stack {
      assert s.OnStack(x) <==> x in s.stack;
    }
    forall i, j | 0 <= i < j < |t.stack| ensures t.StackBefore(i, j) {
      assert s.StackBefore(i, j);
      assert t.stack[i] == s.stack[i] && t.stack[j] == s.stack[j];
    }
  }

  lemma CompletionKeepsCalls<T(!new)>(g: Digraph<T>, s: Search<T>, c: seq<T>, t: Search<T>)
    requires CallsInv(g, s) && Completes(g, s, c, t)
    ensures CallsInv(g, t)
  {
    forall d | 0 <= d < |t.calls|
      ensures t.CallerLinked(d) && t.OnStack(t.calls[d].node)
      ensures t.calls[d].neighborIdx <= |Neighbours(g, t.calls[d].node)|
    {
      assert s.CallerLinked(d) && t.calls[d] == s.calls[d];
      assert d > 0 ==> t.calls[d - 1] == s.calls[d - 1];
      assert s.FrameBefore(d, |s.calls| - 1);
    }
    forall d, e | 0 <= d < e < |t.calls| ensures t.FrameBefore(d, e) {
      assert s.FrameBefore(d, e);
      assert t.calls[d] == s.calls[d] && t.calls[e] == s.calls[e];
    }
  }

  lemma CompletionKeepsReach<T(!new)>(g: Digraph<T>, s: Search<T>, c: seq<T>, t: Search<T>)
    requires ReachInv(g, s) && Completes(g, s, c, t)
    ensures ReachInv(g, t)
  {
    forall x | t.OnStack(x) ensures LeadsBack(g, t, x) {
      assert LeadsBack(g, s, x);
      var d :| 0 <= d < |s.calls| && s.calls[d].node in s.state
        && s.state[s.calls[d].node].index <= s.state[x].index && Reach(g, x, s.calls[d].node);
      assert s.OnStack(x) && x !in c;
      assert d < |s.calls| - 1;
      assert t.calls[d] == s.calls[d];
    }
  }

  lemma CompletionKeepsExplored<T(!new)>(g: Digraph<T>, s: Search<T>, c: seq<T>, t: Search<T>)
    requires ExploredInv(g, s) && Completes(g, s, c, t)
    ensures ExploredInv(g, t)
  {
    forall x, y | t.OnStack(x) && !t.Active(x) && Edge(g, x, y)
      ensures y in t.state
    {
      assert s.OnStack(x) && x !in c;
      forall d | 0 <= d < |s.calls| ensures s.calls[d].node != x {
        assert d < |s.calls| - 1 ==> t.calls[d] == s.calls[d];
      }
    }
    forall d, j | 0 <= d < |t.calls| && 0 <= j < t.calls[d].neighborIdx && j < |Neighbours(g, t.calls[d].node)|
      ensures Neighbours(g, t.calls[d].node)[j] in t.state
    {
      assert t.calls[d].node == s.calls[d].node;
    }
  }

  lemma CompletionKeepsLow<T(!new)>(g: Digraph<T>, s: Search<T>, c: seq<T>, t: Search<T>)
    requires IndexInv(s) && CallsInv(g, s) && LowInv(g, s) && Completes(g, s, c, t)
    ensures LowInv(g, t)
  {
    var n := |s.calls|;
    forall d | 0 <= d < |t.calls|
      ensures t.calls[d].node in t.state && LowAttained(g, t, d)
      ensures LowBounds(g, t, d)
    {
      var v := s.calls[d].node;
      assert t.calls[d] == s.calls[d];
      assert s.FrameBefore(d, n - 1);
      assert LowAttained(g, s, d) && LowBounds(g, s, d);
      var y :| s.OnStack(y) && s.state[y].index == s.state[v].lowlink && Reach(g, v, y);
      assert t.OnStack(y);
      CompletionKeepsBounds(g, s, c, t, d);
    }
  }

  lemma CompletionKeepsBounds<T(!new)>(g: Digraph<T>, s: Search<T>, c: seq<T>, t: Search<T>, d: nat)
    requires CallsInv(g, s) && Completes(g, s, c, t) && d < |s.calls| - 1
    requires s.calls[d].node in s.state && LowBounds(g, s, d)
    ensures t.calls[d].node in t.state && LowBounds(g, t, d)
  {
    var u := s.calls[d].node;
    assert t.calls[d] == s.calls[d];
    assert d + 1 < |t.calls| ==> t.calls[d + 1] == s.calls[d + 1];
    forall x, y | t.InSegment(d, x) && Edge(g, x, y) && t.OnStack(y)
      ensures t.state[u].lowlink <= t.state[y].index
    {
      assert s.OnStack(x) && x !in c;
      assert s.InSegment(d, x);
    }
  }

  lemma SegmentIsExplored<T(!new)>(g: Digraph<T>, s: Search<T>, c: seq<T>, x: T, y: T)
    requires CallsInv(g, s) && ExploredInv(g, s)
    requires Exhausted(g, s) && IsTopSegment(s, c)
    requires x in c && Edge(g, x, y)
    ensures y in s.state
  {
    var n := |s.calls|;
    var u := s.calls[n - 1].node;
    if x == u {
      var j :| 0 <= j < |Neighbours(g, u)| && Neighbours(g, u)[j] == y;
      assert Neighbours(g, s.calls[n - 1].node)[j] in s.state;
    } else {
      forall d | 0 <= d < n ensures s.calls[d].node != x {
        assert d < n - 1 ==> s.FrameBefore(d, n - 1);
      }
    }
  }

  ghost predicate LowIsIndex<T(!new)>(s: Search<T>) {
    && |s.calls| > 0
    && var u := s.calls[|s.calls| - 1].node; u in s.state && s.state[u].lowlink == s.state[u].index
  }

  lemma BackEdgeStaysInSegment<T(!new)>(g: Digraph<T>, s: Search<T>, c: seq<T>, x: T, y: T)
    requires IndexInv(s) && Exhausted(g, s) && IsTopSegment(s, c) && LowIsIndex(s)
    requires LowBounds(g, s, |s.calls| - 1) && s.OnStack(s.calls[|s.calls| - 1].node)
    requires x in c && Edge(g, x, y) && s.OnStack(y)
    ensures y in c
  {
    var n := |s.calls|;
    var u := s.calls[n - 1].node;
    if s.state[x].index == s.state[u].index {
      assert x == u;
      var j :| 0 <= j < |Neighbours(g, u)| && Neighbours(g, u)[j] == y;
    } else {
      assert s.InSegment(n - 1, x);
    }
  }

  /** No edge leaves the popped segment except into finished components. */
  ghost predicate SegmentClosed<T(!new)>(g: Digraph<T>, s: Search<T>, c: seq<T>) {
    forall x, y {:trigger Edge(g, x, y)} :: x in c && Edge(g, x, y) ==> y in c || y in s.done
  }

  lemma SegmentIsClosed<T(!new)>(g: Digraph<T>, s: Search<T>, c: seq<T>)
    requires CallsInv(g, s) && IndexInv(s) && ExploredInv(g, s) && LowInv(g, s) && Retired(s)
    requires Exhausted(g, s) && IsTopSegment(s, c) && LowIsIndex(s)
    ensures SegmentClosed(g, s, c)
  {
    forall x, y | x in c && Edge(g, x, y) ensures y in c || y in s.done {
      SegmentIsExplored(g, s, c, x, y);
      if s.OnStack(y) {
        assert LowBounds(g, s, |s.calls| - 1);
        BackEdgeStaysInSegment(g, s, c, x, y);
      }
    }
  }

  lemma SegmentIsConnected<T(!new)>(g: Digraph<T>, s: Search<T>, c: seq<T>, x: T)
    requires CallsInv(g, s) && ReachInv(g, s) && |s.calls| > 0 && IsTopSegment(s, c) && x in c
    ensures Mutual(g, x, s.calls[|s.calls| - 1].node)
  {
    var n := |s.calls|;
    var u := s.calls[n - 1].node;
    assert Reach(g, u, x);
    assert LeadsBack(g, s, x);
    var d :| 0 <= d < n && s.calls[d].node in s.state
      && s.state[s.calls[d].node].index <= s.state[x].index && Reach(g, x, s.calls[d].node);
    assert d < n - 1 ==> s.FrameBefore(d, n - 1);
    assert Reach(g, s.calls[d].node, u);
    ReachTransitive(g, x, s.calls[d].node, u);
  }

  lemma SegmentIsComponent<T(!new)>(g: Digraph<T>, s: Search<T>, c: seq<T>)
    requires CallsInv(g, s) && ReachInv(g, s) && Retired(s) && DoneInv(g, s)
    requires |s.calls| > 0 && IsTopSegment(s, c) && SegmentClosed(g, s, c)
    ensures IsComponent(g, c)
  {
    var u := s.calls[|s.calls| - 1].node;
    forall x, y | x in c
      ensures y in c <==> Mutual(g, x, y)
    {
      SegmentIsConnected(g, s, c, x);
      if y in c {
        SegmentIsConnected(g, s, c, y);
        ReachTransitive(g, x, u, y);
        ReachTransitive(g, y, u, x);
      } else if Mutual(g, x, y) {
        SegmentIsMaximal(g, s, c, x, y);
      }
    }
  }

  lemma SegmentIsMaximal<T(!new)>(g: Digraph<T>, s: Search<T>, c: seq<T>, x: T, y: T)
    requires Retired(s) && DoneInv(g, s)
    requires |s.calls| > 0 && IsTopSegment(s, c) && SegmentClosed(g, s, c)
    requires x in c && Mutual(g, x, y)
    ensures y in c
  {
    var S := Elements(c) + s.done.Keys;
    ClosedSetTrapsReach(g, S, x, y);
    assert s.OnStack(x);
    if y in s.done {
      ClosedSetTrapsReach(g, s.done.Keys, y, x);
    }
  }

  lemma CompletionKeepsRetired<T(!new)>(g: Digraph<T>, s: Search<T>, c: seq<T>, t: Search<T>)
    requires Retired(s) && Completes(g, s, c, t)
    ensures Retired(t)
  {
  }

  lemma CompletionKeepsDone<T(!new)>(g: Digraph<T>, s: Search<T>, c: seq<T>, t: Search<T>)
    requires Retired(s) && DoneInv(g, s) && Completes(g, s, c, t)
    requires IsComponent(g, c) && SegmentClosed(g, s, c)
    ensures DoneInv(g, t)
  {
    forall x | x in c ensures x !in s.done {}
    forall i | 0 <= i < |t.sccs| ensures IsComponent(g, t.sccs[i]) {}
    CompletionKeepsPlaces(g, s, c, t);
    forall x, y | x in t.done && Edge(g, x, y)
      ensures y in t.done && t.done[y] <= t.done[x]
    {
    }
  }

  lemma CompletionKeepsPlaces<T(!new)>(g: Digraph<T>, s: Search<T>, c: seq<T>, t: Search<T>)
    requires Completes(g, s, c, t) && Retired(s) && Placed(s)
    ensures Placed(t)
  {
    forall x | x in c ensures x !in s.done {}
  }

  // ---- The invariant as a whole -------------------------------------------

  lemma EnterKeepsInv<T(!new)>(g: Digraph<T>, s: Search<T>, w: T, t: Search<T>)
    requires Inv(g, s) && Enters(g, s, w, t)
    ensures Inv(g, t)
  {
    EnterKeepsStack(g, s, w, t);
    EnterKeepsIndex(g, s, w, t);
    EnterKeepsCalls(g, s, w, t);
    EnterKeepsReach(g, s, w, t);
    EnterKeepsExplored(g, s, w, t);
    EnterKeepsLow(g, s, w, t);
    EnterKeepsRetired(g, s, w, t);
    EnterKeepsDone(g, s, w, t);
  }

  lemma ScanKeepsInv<T(!new)>(g: Digraph<T>, s: Search<T>, t: Search<T>)
    requires Inv(g, s) && Scans(g, s, t)
    ensures Inv(g, t)
  {
    ScanKeepsStack(g, s, t);
    ScanKeepsCalls(g, s, t);
    ScanKeepsReach(g, s, t);
    ScanKeepsExplored(g, s, t);
    ScanKeepsLow(g, s, t);
    ScanKeepsRetired(g, s, t);
    ScanKeepsDone(g, s, t);
  }

  lemma ReturnKeepsInv<T(!new)>(g: Digraph<T>, s: Search<T>, t: Search<T>)
    requires Inv(g, s) && Returns(g, s, t)
    ensures Inv(g, t)
  {
    ReturnKeepsShape(g, s, t);
    ReturnKeepsReach(g, s, t);
    ReturnKeepsExplored(g, s, t);
    ReturnKeepsLow(g, s, t);
    ReturnKeepsRetired(g, s, t);
    ReturnKeepsDone(g, s, t);
  }

  lemma CompletionKeepsInv<T(!new)>(g: Digraph<T>, s: Search<T>, c: seq<T>, t: Search<T>)
    requires Inv(g, s) && Completes(g, s, c, t)
    ensures Inv(g, t)
  {
    CompletionKeepsStack(g, s, c, t);
    CompletionKeepsCalls(g, s, c, t);
    CompletionKeepsReach(g, s, c, t);
    CompletionKeepsExplored(g, s, c, t);
    CompletionKeepsLow(g, s, c, t);
    CompletionKeepsRetired(g, s, c, t);
    SegmentIsClosed(g, s, c);
    SegmentIsComponent(g, s, c);
    CompletionKeepsDone(g, s, c, t);
  }

  /** `Inv` under a guard, so that the methods below carry it as a single fact
      instead of a dozen quantifiers; `assert Open(0)` makes it available. */
  ghost predicate Sound<T(!new)>(g: Digraph<T>, s: Search<T>) {
    forall key {:trigger Open(key)} :: Open(key) ==> Inv(g, s)
  }

  ghost predicate Open(key: int) { true }

  // ---- The search ---------------------------------------------------------

  /** What entering the node of the innermost frame of `calls` makes of `s`. */
  ghost function EnterTop<T>(s: Search<T>, calls: seq<Frame<T>>): Search<T>
    requires |calls| > 0
  {
    var w := calls[|calls| - 1].node;
    s.(state := s.state[w := NodeState(|s.order|, |s.order|, true)],
       stack := s.stack + [w], order := s.order + [w], calls := calls)
  }

  /** The innermost frame of `calls` is for a node that is about to be entered. */
  ghost predicate Pending<T(!new)>(g: Digraph<T>, s: Search<T>, calls: seq<Frame<T>>) {
    |calls| > 0 && Enters(g, s, calls[|calls| - 1].node, EnterTop(s, calls))
  }

  lemma ScanStep<T(!new)>(g: Digraph<T>, s: Search<T>, calls: seq<Frame<T>>, state: map<T, NodeState>, low: nat)
    requires Sound(g, s) && |s.calls| > 0
    requires var top := s.calls[|s.calls| - 1];
             && top.neighborIdx < |Neighbours(g, top.node)|
             && calls == s.calls[|s.calls| - 1 := top.(neighborIdx := top.neighborIdx + 1)]
             && var w := Neighbours(g, top.node)[top.neighborIdx];
                && w in s.state && top.node in s.state
                && low == (if s.state[w].onStack && s.state[w].index < s.state[top.node].lowlink then s.state[w].index
                           else s.state[top.node].lowlink)
                && state == s.state[top.node := s.state[top.node].(lowlink := low)]
    ensures Sound(g, s.(calls := calls, state := state))
    ensures state.Keys == s.state.Keys
  {
    assert Open(0);
    var t := s.(calls := calls, state := state);
    assert SameOuterFrames(s, t);
    assert Scans(g, s, t);
    ScanKeepsInv(g, s, t);
  }

  lemma PushStep<T(!new)>(g: Digraph<T>, s: Search<T>, calls: seq<Frame<T>>)
    requires |s.calls| > 0
    requires var top := s.calls[|s.calls| - 1];
             && top.neighborIdx < |Neighbours(g, top.node)|
             && var w := Neighbours(g, top.node)[top.neighborIdx];
                && w !in s.state
                && calls == s.calls[|s.calls| - 1 := top.(neighborIdx := top.neighborIdx + 1)] + [Frame(w, 0,
                    Some(top.node))]
    ensures Pending(g, s, calls)
  {
    var t := EnterTop(s, calls);
    assert EntersFrames(g, s, calls[|calls| - 1].node, t);
  }

  lemma InnermostIsEntered<T(!new)>(g: Digraph<T>, s: Search<T>)
    requires Sound(g, s) && |s.calls| > 0
    ensures s.calls[|s.calls| - 1].node in s.state
    ensures s.calls[|s.calls| - 1].neighborIdx <= |Neighbours(g, s.calls[|s.calls| - 1].node)|
  {
    assert Open(0);
  }

  /** The innermost frame looks at its neighbours until it meets a new one
      (`advanced`, with a frame for it pushed) or has seen them all. */
  method ScanNeighbours<T(==,!new)>(g: Digraph<T>, ghost s0: Search<T>, state0: map<T, NodeState>,
      calls0: seq<Frame<T>>)
    returns (state: map<T, NodeState>, calls: seq<Frame<T>>, advanced: bool, ghost s: Search<T>)
    requires Sound(g, s0) && s0.state == state0 && s0.calls == calls0 && |calls0| > 0
    ensures Sound(g, s) && s.state == state && s.state.Keys == s0.state.Keys
    ensures s.stack == s0.stack && s.order == s0.order && s.sccs == s0.sccs && s.done == s0.done
    ensures advanced ==> Pending(g, s, calls) && s.calls != []
    ensures !advanced ==> s.calls == calls && |calls| == |calls0| && Exhausted(g, s)
  {
    state, calls, advanced, s := state0, calls0, false, s0;
    var n := |calls|;
    var node := calls[n - 1].node;
    var neighbors := Neighbours(g, node);
    InnermostIsEntered(g, s);
    while calls[n - 1].neighborIdx < |neighbors|
      invariant |calls| == n && calls[n - 1].node == node && calls[n - 1].neighborIdx <= |neighbors|
      invariant Sound(g, s) && s.state == state && s.calls == calls && s.state.Keys == s0.state.Keys && node in state
      invariant s.stack == s0.stack && s.order == s0.order && s.sccs == s0.sccs && s.done == s0.done
      decreases |neighbors| - calls[n - 1].neighborIdx
    {
      var w := neighbors[calls[n - 1].neighborIdx];
      calls := calls[n - 1 := calls[n - 1].(neighborIdx := calls[n - 1].neighborIdx + 1)];
      if w !in state {
        calls := calls + [Frame(w, 0, Some(node))];
        advanced := true;
        PushStep(g, s, calls);
        return;
      }
      var ns, ws := state[node], state[w];
      if ws.onStack {
        state := state[node := ns.(lowlink := Min(ns.lowlink, ws.index))];
      }
      assert state == s.state[node := ns.(lowlink := state[node].lowlink)];
      ScanStep(g, s, calls, state, state[node].lowlink);
      s := s.(calls := calls, state := state);
    }
  }

  function Min(a: nat, b: nat): nat {
    if b < a then b else a
  }

  lemma StackPosition<T(!new)>(s: Search<T>, p: nat, x: T)
    requires StackInv(s) && p < |s.stack| && s.stack[p] in s.state
    ensures x in s.stack[p..] <==> s.OnStack(x) && s.state[s.stack[p]].index <= s.state[x].index
  {
    if x in s.stack[p..] {
      var j :| 0 <= j < |s.stack[p..]| && s.stack[p..][j] == x;
      assert s.stack[p + j] == x && s.OnStack(x);
      assert j > 0 ==> s.StackBefore(p, p + j);
    }
    if s.OnStack(x) && s.state[s.stack[p]].index <= s.state[x].index {
      var i :| 0 <= i < |s.stack| && s.stack[i] == x;
      assert i < p ==> s.StackBefore(i, p);
      assert s.stack[p..][i - p] == x;
    }
  }

  ghost predicate ReverseOf<T(!new)>(c: seq<T>, seg: seq<T>) {
    |c| == |seg| && forall i :: 0 <= i < |c| ==> c[i] == seg[|seg| - 1 - i]
  }

  lemma ReverseHasSameElements<T(!new)>(c: seq<T>, seg: seq<T>)
    requires ReverseOf(c, seg)
    ensures forall x :: x in c <==> x in seg
    ensures Distinct(seg) ==> Distinct(c)
  {
    forall x | x in seg ensures x in c {
      var i :| 0 <= i < |seg| && seg[i] == x;
      assert c[|seg| - 1 - i] == x;
    }
  }

  /** Pops the stack down to and including `node`. */
  method PopComponent<T(==,!new)>(node: T, state0: map<T, NodeState>, stack0: seq<T>)
    returns (state: map<T, NodeState>, stack: seq<T>, scc: seq<T>)
    requires node in stack0 && forall x :: x in stack0 ==> x in state0
    ensures stack <= stack0 && |stack| < |stack0| && stack0[|stack|] == node && node !in stack0[|stack| + 1..]
    ensures ReverseOf(scc, stack0[|stack|..])
    ensures state.Keys == state0.Keys
    ensures forall x :: x in state0 ==> state[x] == state0[x].(onStack := state0[x].onStack && x !in scc)
  {
    state, stack, scc := state0, stack0, [];
    while true
      invariant stack <= stack0 && node in stack && node !in stack0[|stack|..]
      invariant ReverseOf(scc, stack0[|stack|..])
      invariant state.Keys == state0.Keys
      invariant forall x {:trigger state[x]} :: x in state0 ==>
                state[x] == state0[x].(onStack := state0[x].onStack && x !in scc)
      decreases |stack|
    {
      var popped := stack[|stack| - 1];
      assert popped in stack0;
      stack := stack[..|stack| - 1];
      assert stack0[|stack|..] == [popped] + stack0[|stack| + 1..];
      state := state[popped := state[popped].(onStack := false)];
      scc := scc + [popped];
      if popped == node {
        return;
      }
    }
  }

  // ---- Steps of the method -------------------------------------------------

  /** The frame of the first root never hands a smaller lowlink to a caller. */
  lemma LowerLowlinkHasCaller<T(!new)>(g: Digraph<T>, s: Search<T>)
    requires CallsInv(g, s) && ReachInv(g, s) && LowInv(g, s) && |s.calls| > 0
    ensures s.calls[|s.calls| - 1].node in s.state
    ensures var u := s.calls[|s.calls| - 1].node; s.state[u].lowlink < s.state[u].index ==> |s.calls| > 1
  {
    var n := |s.calls|;
    var u := s.calls[n - 1].node;
    assert LowAttained(g, s, n - 1);
    var y :| s.OnStack(y) && s.state[y].index == s.state[u].lowlink && Reach(g, u, y);
    assert LeadsBack(g, s, y);
    var d :| 0 <= d < n && s.calls[d].node in s.state
      && s.state[s.calls[d].node].index <= s.state[y].index && Reach(g, y, s.calls[d].node);
  }

  /** What the method relies on when the innermost frame returns. */
  lemma ReturnFacts<T(!new)>(g: Digraph<T>, s: Search<T>)
    requires Sound(g, s) && Exhausted(g, s)
    ensures var n := |s.calls|;
            var u := s.calls[n - 1].node;
            && u in s.state && u in s.stack && s.state[u].lowlink <= s.state[u].index
            && s.calls[n - 1].callerNode == (if n == 1 then None else Some(s.calls[n - 2].node))
            && (n > 1 ==>
                  var v := s.calls[n - 2].node;
                  v in s.state && s.state[v].lowlink <= s.state[v].index < s.state[u].index)
            && (s.state[u].lowlink < s.state[u].index ==> n > 1)
    ensures forall x :: x in s.stack ==> x in s.state
  {
    assert Open(0);
    var n := |s.calls|;
    assert s.OnStack(s.calls[n - 1].node) && s.CallerLinked(n - 1);
    if n > 1 {
      assert s.FrameBefore(n - 2, n - 1);
    }
    LowerLowlinkHasCaller(g, s);
    forall x | x in s.stack ensures x in s.state {
      assert s.OnStack(x);
    }
  }

  lemma ReturnStep<T(!new)>(g: Digraph<T>, s: Search<T>, state: map<T, NodeState>)
    requires Sound(g, s) && Exhausted(g, s) && |s.calls| > 1
    requires var n := |s.calls|;
             var u, v := s.calls[n - 1].node, s.calls[n - 2].node;
             && u in s.state && v in s.state && s.state[u].lowlink < s.state[u].index
             && state == s.state[v := s.state[v].(lowlink := Min(s.state[v].lowlink, s.state[u].lowlink))]
    ensures Sound(g, s.(calls := s.calls[..|s.calls| - 1], state := state))
  {
    assert Open(0);
    var t := s.(calls := s.calls[..|s.calls| - 1], state := state);
    assert SameOuterFrames(s, t);
    ReturnKeepsInv(g, s, t);
  }

  ghost function Completed<T>(s: Search<T>, c: seq<T>, state: map<T, NodeState>, stack: seq<T>): Search<T>
    requires |s.calls| > 0
  {
    s.(calls := s.calls[..|s.calls| - 1], state := state, stack := stack, sccs := s.sccs + [c],
       done := map x | x in s.done.Keys + Elements(c) :: if x in s.done then s.done[x] else |s.sccs|)
  }

  lemma CompletionStep<T(!new)>(g: Digraph<T>, s: Search<T>, c: seq<T>, state: map<T, NodeState>, stack: seq<T>)
    requires Sound(g, s) && Exhausted(g, s) && LowIsIndex(s)
    requires stack <= s.stack && |stack| < |s.stack| && s.stack[|stack|] == s.calls[|s.calls| - 1].node
    requires ReverseOf(c, s.stack[|stack|..])
    requires state.Keys == s.state.Keys
    requires forall x :: x in s.state ==> state[x] == s.state[x].(onStack := s.state[x].onStack && x !in c)
    ensures Sound(g, Completed(s, c, state, stack))
  {
    assert Open(0);
    SegmentIsPopped(s, c, |stack|);
    var t := Completed(s, c, state, stack);
    assert SameOuterFrames(s, t);
    assert Completes(g, s, c, t);
    CompletionKeepsInv(g, s, c, t);
  }

  lemma SegmentIsPopped<T(!new)>(s: Search<T>, c: seq<T>, p: nat)
    requires StackInv(s) && |s.calls| > 0 && p < |s.stack| && s.stack[p] == s.calls[|s.calls| - 1].node
    requires s.stack[p] in s.state && ReverseOf(c, s.stack[p..])
    ensures IsTopSegment(s, c)
    ensures forall x :: x in s.stack[..p] <==> x in s.stack && x !in c
  {
    var seg := s.stack[p..];
    assert seg[0] == s.stack[p];
    forall i, j | 0 <= i < j < |seg| ensures seg[i] != seg[j] {
      assert s.StackBefore(p + i, p + j);
    }
    ReverseHasSameElements(c, seg);
    forall x ensures x in c <==> s.OnStack(x) && s.state[s.stack[p]].index <= s.state[x].index {
      StackPosition(s, p, x);
    }
    assert s.stack == s.stack[..p] + seg;
    forall x | x in s.stack[..p] ensures x !in c {
      var i :| 0 <= i < p && s.stack[i] == x;
      assert s.StackBefore(i, p);
    }
  }

  // ---- What the search visits ----------------------------------------------

  ghost predicate FromRoots<T(!new)>(g: Digraph<T>, roots: seq<T>, x: T) {
    exists r :: r in roots && Reach(g, r, x)
  }

  ghost predicate VisitsFromRoots<T(!new)>(g: Digraph<T>, roots: seq<T>, S: set<T>) {
    forall x {:trigger FromRoots(g, roots, x)} :: x in S ==> FromRoots(g, roots, x)
  }

  /** `U` is a finite set that no walk from the roots leaves. */
  ghost predicate Surrounds<T(!new)>(g: Digraph<T>, roots: seq<T>, U: set<T>) {
    && (forall r :: r in roots ==> r in U)
    && (forall x, y {:trigger Edge(g, x, y)} :: x in U && Edge(g, x, y) ==> y in U)
  }

  lemma FiniteUniverse<T(!new)>(g: Digraph<T>, roots: seq<T>) returns (U: set<T>)
    ensures Surrounds(g, roots, U)
  {
    var targets := set u, v | u in g && v in g[u] :: v;
    U := Elements(roots) + targets;
    forall x, y | x in U && Edge(g, x, y) ensures y in U {
      assert x in g && y in g[x];
    }
  }

  /** Between two rounds of the inner loop the innermost frame either is being
      scanned or waits to be entered, everything seen comes from the roots, and
      at most `left` nodes of `U` remain to be seen. Guarded like `Sound`. */
  ghost predicate Ready<T(!new)>(g: Digraph<T>, roots: seq<T>, U: set<T>, s: Search<T>, calls: seq<Frame<T>>,
      left: nat) {
    forall key {:trigger Opened(key)} :: Opened(key) ==>
      && (s.calls == calls || Waiting(g, roots, s, calls))
      && VisitsFromRoots(g, roots, s.state.Keys)
      && Bounded(g, roots, U, s.state.Keys, left)
  }

  ghost predicate Opened(key: int) { true }

  ghost predicate Waiting<T(!new)>(g: Digraph<T>, roots: seq<T>, s: Search<T>, calls: seq<Frame<T>>) {
    Pending(g, s, calls) && (s.calls == [] ==> calls[|calls| - 1].node in roots)
  }

  ghost predicate Bounded<T(!new)>(g: Digraph<T>, roots: seq<T>, U: set<T>, seen: set<T>, left: nat) {
    Surrounds(g, roots, U) && seen <= U && |U - seen| <= left
  }

  lemma OneFewer<T(!new)>(g: Digraph<T>, roots: seq<T>, U: set<T>, seen: set<T>, w: T, left: nat)
    requires Bounded(g, roots, U, seen, left) && w in U && w !in seen
    ensures left > 0 && Bounded(g, roots, U, seen + {w}, left - 1)
  {
    assert U - seen == (U - (seen + {w})) + {w};
  }

  /** A node that is about to be entered comes from a root. */
  lemma PendingComesFromRoots<T(!new)>(g: Digraph<T>, roots: seq<T>, U: set<T>, s: Search<T>, calls: seq<Frame<T>>)
    requires Sound(g, s) && Waiting(g, roots, s, calls) && VisitsFromRoots(g, roots, s.state.Keys)
    requires Surrounds(g, roots, U) && s.state.Keys <= U
    ensures var w := calls[|calls| - 1].node; FromRoots(g, roots, w) && w in U
  {
    var w := calls[|calls| - 1].node;
    if |s.calls| == 0 {
      ReachSelf(g, w);
    } else {
      InnermostIsEntered(g, s);
      var u := s.calls[|s.calls| - 1].node;
      assert FromRoots(g, roots, u);
      var r :| r in roots && Reach(g, r, u);
      assert Edge(g, u, w);
      ReachEdge(g, u, w);
      ReachTransitive(g, r, u, w);
    }
  }

  lemma WaitsToBeEntered<T(!new)>(g: Digraph<T>, roots: seq<T>, U: set<T>, s: Search<T>, calls: seq<Frame<T>>,
      left: nat)
    requires Sound(g, s) && Ready(g, roots, U, s, calls, left)
    requires |calls| > 0 && calls[|calls| - 1].node !in s.state
    ensures Waiting(g, roots, s, calls)
    ensures Bounded(g, roots, U, s.state.Keys, left) && VisitsFromRoots(g, roots, s.state.Keys)
  {
    assert Opened(0);
    if s.calls == calls {
      InnermostIsEntered(g, s);
    }
  }

  lemma EnterKeepsSound<T(!new)>(g: Digraph<T>, s: Search<T>, calls: seq<Frame<T>>)
    requires Sound(g, s) && Pending(g, s, calls)
    ensures Sound(g, EnterTop(s, calls))
  {
    assert Open(0);
    EnterKeepsInv(g, s, calls[|calls| - 1].node, EnterTop(s, calls));
  }

  lemma EnterStep<T(!new)>(g: Digraph<T>, roots: seq<T>, U: set<T>, s: Search<T>, calls: seq<Frame<T>>, left: nat)
    requires Sound(g, s) && Ready(g, roots, U, s, calls, left)
    requires |calls| > 0 && calls[|calls| - 1].node !in s.state
    ensures left > 0 && Sound(g, EnterTop(s, calls)) && Ready(g, roots, U, EnterTop(s, calls), calls, left - 1)
  {
    var w, t := calls[|calls| - 1].node, EnterTop(s, calls);
    WaitsToBeEntered(g, roots, U, s, calls, left);
    PendingComesFromRoots(g, roots, U, s, calls);
    EnterKeepsSound(g, s, calls);
    assert t.state.Keys == s.state.Keys + {w};
    OneFewer(g, roots, U, s.state.Keys, w, left);
    assert VisitsFromRoots(g, roots, t.state.Keys);
  }

  /** After a round the innermost frame, if any, is ready for the next one. */
  lemma RoundIsOver<T(!new)>(g: Digraph<T>, roots: seq<T>, U: set<T>, s: Search<T>, t: Search<T>, calls: seq<Frame<T>>,
      left: nat)
    requires Sound(g, t) && Ready(g, roots, U, s, s.calls, left) && t.state.Keys == s.state.Keys
    requires t.calls == calls || (Pending(g, t, calls) && t.calls != [])
    ensures Ready(g, roots, U, t, calls, left)
    ensures |calls| > 0 ==> (calls[|calls| - 1].node in t.state <==> t.calls == calls)
    ensures calls == [] ==> t.calls == []
  {
    assert Opened(0);
    if |calls| > 0 && t.calls == calls {
      InnermostIsEntered(g, t);
    }
  }

  /** `sccs` lists, without repetition, the strongly connected components of
      everything reachable from `roots`; `place` says where each node is listed.
      No edge leads to a component listed later. */
  ghost predicate IsDecomposition<T(!new)>(g: Digraph<T>, roots: seq<T>, sccs: seq<seq<T>>, place: map<T, nat>) {
    && (forall i :: 0 <= i < |sccs| ==> IsComponent(g, sccs[i]))
    && (forall x {:trigger place[x]} :: x in place ==> place[x] < |sccs| && x in sccs[place[x]])
    && (forall i, x {:trigger x in sccs[i]} :: 0 <= i < |sccs| && x in sccs[i] ==> x in place && place[x] == i)
    && (forall x {:trigger x in place} :: x in place <==> FromRoots(g, roots, x))
    && (forall x, y {:trigger Edge(g, x, y)} :: x in place && Edge(g, x, y) ==> y in place && place[y] <= place[x])
  }

  lemma NothingLeftOnStack<T(!new)>(g: Digraph<T>, s: Search<T>)
    requires ReachInv(g, s) && |s.calls| == 0 && Retired(s)
    ensures s.done.Keys == s.state.Keys
  {
    forall x ensures !s.OnStack(x) {
      assert s.OnStack(x) ==> LeadsBack(g, s, x);
    }
  }

  lemma DecompositionIsComplete<T(!new)>(g: Digraph<T>, roots: seq<T>, s: Search<T>)
    requires DoneInv(g, s) && VisitsFromRoots(g, roots, s.state.Keys) && s.done.Keys == s.state.Keys
    requires forall r :: r in roots ==> r in s.state
    ensures IsDecomposition(g, roots, s.sccs, s.done)
  {
    forall x ensures x in s.done <==> FromRoots(g, roots, x) {
      if x in s.state {
        assert FromRoots(g, roots, x);
      } else if FromRoots(g, roots, x) {
        var r :| r in roots && Reach(g, r, x);
        ClosedSetTrapsReach(g, s.done.Keys, r, x);
      }
    }
  }

  lemma SearchIsOver<T(!new)>(g: Digraph<T>, roots: seq<T>, U: set<T>, s: Search<T>, left: nat)
    requires Sound(g, s) && |s.calls| == 0 && Ready(g, roots, U, s, [], left)
    requires forall r :: r in roots ==> r in s.state
    ensures IsDecomposition(g, roots, s.sccs, s.done)
  {
    assert Open(0) && Opened(0);
    NothingLeftOnStack(g, s);
    DecompositionIsComplete(g, roots, s);
  }

  lemma RootCanBeEntered<T(!new)>(g: Digraph<T>, roots: seq<T>, U: set<T>, s: Search<T>, root: T, left: nat)
    requires Ready(g, roots, U, s, [], left) && s.calls == [] && root in roots && root !in s.state
    ensures Ready(g, roots, U, s, [Frame(root, 0, None)], left)
  {
    assert Opened(0);
    var calls := [Frame(root, 0, None)];
    assert EntersFrames(g, s, root, EnterTop(s, calls));
    assert Waiting(g, roots, s, calls);
  }

  lemma SearchStarts<T(!new)>(g: Digraph<T>, roots: seq<T>) returns (s: Search<T>, U: set<T>, left: nat)
    ensures s == Search(map[], [], [], [], [], map[])
    ensures Sound(g, s) && Ready(g, roots, U, s, [], left)
  {
    s := Search(map[], [], [], [], [], map[]);
    U := FiniteUniverse(g, roots);
    left := |U|;
    assert U - s.state.Keys == U;
  }

  /** The same without naming the places: no node is in two components, the components
      cover what is reachable from the roots, and every edge leads into the component of
      its source or into one listed before it. */
  ghost predicate Decomposes<T(!new)>(g: Digraph<T>, roots: seq<T>, sccs: seq<seq<T>>) {
    && (forall i :: 0 <= i < |sccs| ==> IsComponent(g, sccs[i]))
    && (forall i, j, x {:trigger x in sccs[i], x in sccs[j]} ::
          0 <= i < |sccs| && 0 <= j < |sccs| && x in sccs[i] && x in sccs[j] ==> i == j)
    && (forall x {:trigger FromRoots(g, roots, x)} :: FromRoots(g, roots, x) <==>
        exists i :: 0 <= i < |sccs| && x in sccs[i])
    && (forall i, j, x, y {:trigger Edge(g, x, y), x in sccs[i], y in sccs[j]} ::
          0 <= i < |sccs| && 0 <= j < |sccs| && x in sccs[i] && y in sccs[j] && Edge(g, x, y) ==> j <= i)
  }

  lemma PlacesDecompose<T(!new)>(g: Digraph<T>, roots: seq<T>, sccs: seq<seq<T>>, place: map<T, nat>)
    requires IsDecomposition(g, roots, sccs, place)
    ensures Decomposes(g, roots, sccs)
  {
    forall x ensures FromRoots(g, roots, x) <==> exists i :: 0 <= i < |sccs| && x in sccs[i] {
      if FromRoots(g, roots, x) {
        assert x in place && x in sccs[place[x]];
      }
    }
  }

  /** Tarjan's algorithm with an explicit call stack. */
  method TarjanSCC<T(==,!new)>(nodeIds: seq<T>, adjacency: Digraph<T>)
      returns (sccs: seq<seq<T>>, ghost place: map<T, nat>)
    ensures Decomposes(adjacency, nodeIds, sccs)
    ensures IsDecomposition(adjacency, nodeIds, sccs, place)
  {
    var state: map<T, NodeState> := map[];
    var stack: seq<T> := [];
    sccs := [];
    var counter := 0;
    ghost var s, U, left := SearchStarts(adjacency, nodeIds);
    for i := 0 to |nodeIds|
      invariant Sound(adjacency, s) && Ready(adjacency, nodeIds, U, s, [], left) && s.calls == []
      invariant s.state == state && s.stack == stack && s.sccs == sccs && |s.order| == counter
      invariant forall r :: r in nodeIds[..i] ==> r in state
    {
      var root := nodeIds[i];
      if root !in state {
        state, stack, sccs, counter, s, left :=
          SearchFrom(nodeIds, adjacency, U, root, state, stack, sccs, counter, s, left);
      }
    }
    SearchIsOver(adjacency, nodeIds, U, s, left);
    place := s.done;
    PlacesDecompose(adjacency, nodeIds, sccs, place);
  }

  /** The search from one root that was not entered before. */
  method SearchFrom<T(==,!new)>(ghost nodeIds: seq<T>, adjacency: Digraph<T>, ghost U: set<T>, root: T,
      state0: map<T, NodeState>, stack0: seq<T>, sccs0: seq<seq<T>>, counter0: nat, ghost s0: Search<T>,
          ghost left0: nat)
    returns (state: map<T, NodeState>, stack: seq<T>, sccs: seq<seq<T>>, counter: nat, ghost s: Search<T>,
        ghost left: nat)
    requires root in nodeIds && root !in state0
    requires Sound(adjacency, s0) && Ready(adjacency, nodeIds, U, s0, [], left0) && s0.calls == []
    requires s0.state == state0 && s0.stack == stack0 && s0.sccs == sccs0 && |s0.order| == counter0
    ensures Sound(adjacency, s) && Ready(adjacency, nodeIds, U, s, [], left) && s.calls == []
    ensures s.state == state && s.stack == stack && s.sccs == sccs && |s.order| == counter
    ensures forall x :: x in state0 || x == root ==> x in state
  {
    state, stack, sccs, counter, s, left := state0, stack0, sccs0, counter0, s0, left0;
    var callStack: seq<Frame<T>> := [Frame(root, 0, None)];
    RootCanBeEntered(adjacency, nodeIds, U, s, root, left);
    while |callStack| > 0
      invariant Sound(adjacency, s) && Ready(adjacency, nodeIds, U, s, callStack, left)
      invariant s.state == state && s.stack == stack && s.sccs == sccs && |s.order| == counter
      invariant forall x :: x in state0 ==> x in state
      invariant |callStack| > 0 && callStack[|callStack| - 1].node in state ==> s.calls == callStack
      invariant callStack == [] ==> s.calls == []
      invariant root !in state ==> |callStack| == 1 && callStack[0].node == root
      decreases left, if |callStack| > 0 && callStack[|callStack| - 1].node !in state then 0 else 1, |callStack|
    {
      var frame := callStack[|callStack| - 1];
      var node := frame.node;
      if node !in state {
        EnterStep(adjacency, nodeIds, U, s, callStack, left);
        left := left - 1;
        s := EnterTop(s, callStack);
        state := state[node := NodeState(counter, counter, true)];
        counter := counter + 1;
        stack := stack + [node];
      }
      ghost var t := s;
      var advanced;
      state, callStack, advanced, s := ScanNeighbours(adjacency, s, state, callStack);
      if !advanced {
        state, callStack, stack, sccs, s := Leave(adjacency, s, state, callStack, stack, sccs);
      }
      RoundIsOver(adjacency, nodeIds, U, t, s, callStack, left);
    }
  }

  /** The innermost frame returns: its lowlink goes to the caller, and the node's
      component is popped if the node is the first of it that was entered. */
  method Leave<T(==,!new)>(ghost g: Digraph<T>, ghost s0: Search<T>, state0: map<T, NodeState>,
      calls0: seq<Frame<T>>, stack0: seq<T>, sccs0: seq<seq<T>>)
    returns (state: map<T, NodeState>, calls: seq<Frame<T>>, stack: seq<T>, sccs: seq<seq<T>>, ghost s: Search<T>)
    requires Sound(g, s0) && Exhausted(g, s0)
    requires s0.state == state0 && s0.calls == calls0 && s0.stack == stack0 && s0.sccs == sccs0
    ensures Sound(g, s) && s.order == s0.order
    ensures s.state == state && s.calls == calls && s.stack == stack && s.sccs == sccs
    ensures |calls| == |calls0| - 1 && state.Keys == state0.Keys
  {
    state, stack, sccs := state0, stack0, sccs0;
    ReturnFacts(g, s0);
    var frame := calls0[|calls0| - 1];
    var node := frame.node;
    calls := calls0[..|calls0| - 1];
    if frame.callerNode.Some? {
      var caller := frame.callerNode.value;
      state := state[caller := state[caller].(lowlink := Min(state[caller].lowlink, state[node].lowlink))];
    }
    if state[node].lowlink == state[node].index {
      assert state == state0;
      var scc;
      state, stack, scc := PopComponent(node, state, stack);
      sccs := sccs + [scc];
      CompletionStep(g, s0, scc, state, stack);
      s := Completed(s0, scc, state, stack);
    } else {
      ReturnStep(g, s0, state);
      s := s0.(calls := calls, state := state);
    }
  }
}
