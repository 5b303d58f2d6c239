/** Typo detection for configuration keys: the two-row edit-distance table and
    the closest known key. */
module EditDistance {
  import opened Options
  import opened Sorting

  // ---- The distance ----------------------------------------------------------

  function Min3(a: nat, b: nat, c: nat): nat {
    if a <= b && a <= c then a else if b <= c then b else c
  }

  /** Fewest deletions, insertions and substitutions at the ends, recursively. */
  function Distance(a: Text, b: Text): nat
    decreases |a| + |b|
  {
    if a == [] then |b|
    else if b == [] then |a|
    else
      var a', b' := a[..|a| - 1], b[..|b| - 1];
      Min3(Distance(a', b) + 1, Distance(a, b') + 1, Distance(a', b') + if a[|a| - 1] == b[|b| - 1] then 0 else 1)
  }

  lemma {:induction false} DistanceZero(a: Text, b: Text)
    ensures Distance(a, b) == 0 <==> a == b
    decreases |a| + |b|
  {
    if a != [] && b != [] {
      var a', b' := a[..|a| - 1], b[..|b| - 1];
      DistanceZero(a', b');
      assert a == a' + [a[|a| - 1]] && b == b' + [b[|b| - 1]];
    }
  }

  lemma {:induction false} DistanceSymmetric(a: Text, b: Text)
    ensures Distance(a, b) == Distance(b, a)
    decreases |a| + |b|
  {
    if a != [] && b != [] {
      var a', b' := a[..|a| - 1], b[..|b| - 1];
      DistanceSymmetric(a', b);
      DistanceSymmetric(a, b');
      DistanceSymmetric(a', b');
    }
  }

  lemma {:induction false} LengthBound(a: Text, b: Text)
    ensures |a| <= |b| + Distance(a, b) && |b| <= |a| + Distance(a, b) && Distance(a, b) <= |a| + |b|
    decreases |a| + |b|
  {
    if a != [] && b != [] {
      var a', b' := a[..|a| - 1], b[..|b| - 1];
      LengthBound(a', b);
      LengthBound(a, b');
      LengthBound(a', b');
    }
  }

  lemma {:induction false} DistanceTriangle(a: Text, b: Text, c: Text)
    ensures Distance(a, c) <= Distance(a, b) + Distance(b, c)
    decreases |a| + |b| + |c|
  {
    if a == [] || c == [] {
      LengthBound(b, c);
      LengthBound(a, b);
    } else if b == [] {
      LengthBound(a, c);
    } else {
      var a', b', c' := a[..|a| - 1], b[..|b| - 1], c[..|c| - 1];
      DistanceTriangle(a', b, c);
      DistanceTriangle(a, b, c');
      DistanceTriangle(a, b', c);
      DistanceTriangle(a, b', c');
      DistanceTriangle(a', b', c);
      DistanceTriangle(a', b', c');
    }
  }

  // ---- The distance counts single-character edits ------------------------------

  ghost predicate EditAt(s: Text, t: Text, u: Text, v: Text, c: CodeUnit, d: CodeUnit) {
    || (s == u + v && t == u + [c] + v)
    || (s == u + [c] + v && t == u + v)
    || (s == u + [c] + v && t == u + [d] + v)
  }

  /** `t` is `s` with one character inserted, deleted or replaced. */
  ghost predicate OneEdit(s: Text, t: Text) {
    exists u: Text, v: Text, c: CodeUnit, d: CodeUnit :: EditAt(s, t, u, v, c, d)
  }

  ghost predicate EditPath(p: seq<Text>, s: Text, t: Text) {
    && |p| > 0 && p[0] == s
    && if |p| == 1 then s == t else OneEdit(p[0], p[1]) && EditPath(p[1..], p[1], t)
  }

  lemma {:induction false} CommonSuffix(s: Text, t: Text, v: Text)
    ensures Distance(s + v, t + v) <= Distance(s, t)
    decreases |v|
  {
    if v == [] {
      assert s + v == s && t + v == t;
    } else {
      var v' := v[..|v| - 1];
      CommonSuffix(s, t, v');
      assert (s + v)[..|s + v| - 1] == s + v' && (t + v)[..|t + v| - 1] == t + v';
    }
  }

  lemma OneMoreAtEnd(u: Text, c: CodeUnit)
    ensures Distance(u, u + [c]) <= 1 && Distance(u + [c], u) <= 1
  {
    DistanceZero(u, u);
    assert (u + [c])[..|u + [c]| - 1] == u;
    DistanceSymmetric(u, u + [c]);
  }

  lemma OneReplacedAtEnd(u: Text, c: CodeUnit, d: CodeUnit)
    ensures Distance(u + [c], u + [d]) <= 1
  {
    DistanceZero(u, u);
    assert (u + [c])[..|u + [c]| - 1] == u && (u + [d])[..|u + [d]| - 1] == u;
  }

  lemma OneEditIsNear(s: Text, t: Text)
    requires OneEdit(s, t)
    ensures Distance(s, t) <= 1
  {
    var u: Text, v: Text, c: CodeUnit, d: CodeUnit :| EditAt(s, t, u, v, c, d);
    OneMoreAtEnd(u, c);
    OneReplacedAtEnd(u, c, d);
    CommonSuffix(u, u + [c], v);
    CommonSuffix(u + [c], u, v);
    CommonSuffix(u + [c], u + [d], v);
  }

  /** No sequence of edits is shorter than the distance. */
  lemma {:induction false} PathIsLongEnough(p: seq<Text>, s: Text, t: Text)
    requires EditPath(p, s, t)
    ensures Distance(s, t) <= |p| - 1
  {
    if |p| == 1 {
      DistanceZero(s, t);
    } else {
      OneEditIsNear(s, p[1]);
      PathIsLongEnough(p[1..], p[1], t);
      DistanceTriangle(s, p[1], t);
    }
  }

  lemma {:induction false} PathWithSuffix(p: seq<Text>, s: Text, t: Text, c: CodeUnit) returns (q: seq<Text>)
    requires EditPath(p, s, t)
    ensures |q| == |p| && EditPath(q, s + [c], t + [c])
  {
    if |p| == 1 {
      q := [s + [c]];
    } else {
      var rest := PathWithSuffix(p[1..], p[1], t, c);
      EditWithSuffix(s, p[1], c);
      q := [s + [c]] + rest;
      assert q[1..] == rest;
    }
  }

  lemma EditWithSuffix(s: Text, t: Text, e: CodeUnit)
    requires OneEdit(s, t)
    ensures OneEdit(s + [e], t + [e])
  {
    var u: Text, v: Text, c: CodeUnit, d: CodeUnit :| EditAt(s, t, u, v, c, d);
    var w := v + [e];
    assert (u + v) + [e] == u + w;
    assert (u + [c] + v) + [e] == u + [c] + w;
    assert (u + [d] + v) + [e] == u + [d] + w;
    assert EditAt(s + [e], t + [e], u, w, c, d);
  }

  lemma {:induction false} PathThen(p: seq<Text>, s: Text, t: Text, r: Text) returns (q: seq<Text>)
    requires EditPath(p, s, t) && OneEdit(t, r)
    ensures |q| == |p| + 1 && EditPath(q, s, r)
  {
    if |p| == 1 {
      q := [s, r];
      assert q[1..] == [r];
    } else {
      var rest := PathThen(p[1..], p[1], t, r);
      q := [s] + rest;
      assert q[1..] == rest;
    }
  }

  lemma EditsAtEnd(u: Text, c: CodeUnit, d: CodeUnit)
    ensures OneEdit(u + [c], u) && OneEdit(u, u + [c]) && OneEdit(u + [c], u + [d])
  {
    var v: Text := [];
    assert u + v == u && u + [c] + v == u + [c] && u + [d] + v == u + [d];
    assert EditAt(u + [c], u, u, v, c, d) && EditAt(u, u + [c], u, v, c, d) && EditAt(u + [c], u + [d], u, v, c, d);
  }

  lemma PathThenInsert(p: seq<Text>, a: Text, b: Text) returns (q: seq<Text>)
    requires b != [] && EditPath(p, a, b[..|b| - 1])
    ensures EditPath(q, a, b) && |q| == |p| + 1
  {
    var b' := b[..|b| - 1];
    EditsAtEnd(b', b[|b| - 1], 0);
    assert b == b' + [b[|b| - 1]];
    q := PathThen(p, a, b', b);
  }

  lemma DeleteThenPath(p: seq<Text>, a: Text, b: Text) returns (q: seq<Text>)
    requires a != [] && EditPath(p, a[..|a| - 1], b)
    ensures EditPath(q, a, b) && |q| == |p| + 1
  {
    var a' := a[..|a| - 1];
    EditsAtEnd(a', a[|a| - 1], 0);
    assert a == a' + [a[|a| - 1]];
    q := [a] + p;
    assert q[1..] == p;
  }

  lemma PathThenReplace(p: seq<Text>, a: Text, b: Text) returns (q: seq<Text>)
    requires a != [] && b != [] && EditPath(p, a[..|a| - 1], b[..|b| - 1])
    ensures EditPath(q, a, b) && |q| == |p| + if a[|a| - 1] == b[|b| - 1] then 0 else 1
  {
    var a', b', x, y := a[..|a| - 1], b[..|b| - 1], a[|a| - 1], b[|b| - 1];
    assert a == a' + [x] && b == b' + [y];
    q := PathWithSuffix(p, a', b', x);
    if x != y {
      EditsAtEnd(b', x, y);
      q := PathThen(q, a, b' + [x], b);
    }
  }

  /** Some sequence of edits is as short as the distance. */
  lemma {:induction false} ShortestPath(a: Text, b: Text) returns (p: seq<Text>)
    ensures EditPath(p, a, b) && |p| == Distance(a, b) + 1
    decreases |a| + |b|
  {
    if a == [] && b == [] {
      p := [a];
    } else if b != [] && Distance(a, b) == Distance(a, b[..|b| - 1]) + 1 {
      p := ShortestPath(a, b[..|b| - 1]);
      p := PathThenInsert(p, a, b);
    } else if a != [] && Distance(a, b) == Distance(a[..|a| - 1], b) + 1 {
      p := ShortestPath(a[..|a| - 1], b);
      p := DeleteThenPath(p, a, b);
    } else {
      p := ShortestPath(a[..|a| - 1], b[..|b| - 1]);
      p := PathThenReplace(p, a, b);
    }
  }

  // ---- The two-row table -------------------------------------------------------

  const MAX_LENGTH := 40

  /** The value of the table, or infinity for strings over the length limit. */
  datatype Measure = Finite(value: nat) | Infinite

  function MeasureOf(a: Text, b: Text): Measure {
    if a == b then Finite(0)
    else if |a| > MAX_LENGTH || |b| > MAX_LENGTH then Infinite
    else Finite(Distance(a, b))
  }

  method Levenshtein(a: Text, b: Text) returns (r: Measure)
    ensures r == MeasureOf(a, b)
  {
    if a == b {
      return Finite(0);
    }
    if |a| > MAX_LENGTH || |b| > MAX_LENGTH {
      return Infinite;
    }
    var m, n := |a|, |b|;
    if m == 0 {
      return Finite(n);
    }
    if n == 0 {
      return Finite(m);
    }
    var prev := new nat[n + 1](j => 0);
    var curr := new nat[n + 1](j => 0);
    for j := 0 to n + 1
      invariant forall k :: 0 <= k < j ==> prev[k] == k
    {
      prev[j] := j;
    }
    assert Row(prev[..], a, b, 0, n + 1);
    for i := 1 to m + 1
      invariant Row(prev[..], a, b, i - 1, n + 1)
    {
      FillRow(a, b, i, prev, curr);
      for j := 0 to n + 1
        invariant Row(curr[..], a, b, i, n + 1)
        invariant forall k :: 0 <= k < j ==> prev[k] == curr[k]
      {
        prev[j] := curr[j];
      }
      assert prev[..] == curr[..];
    }
    assert prev[..][n] == prev[n];
    assert a[..m] == a && b[..n] == b;
    r := Finite(prev[n]);
  }

  /** What is measured: nothing between equal strings, infinity when one of two different ones
      has more than forty code units, and else the length of a shortest sequence of edits. */
  lemma MeasureMeans(a: Text, b: Text)
    ensures a == b ==> MeasureOf(a, b) == Finite(0)
    ensures MeasureOf(a, b).Infinite? <==> a != b && (|a| > 40 || |b| > 40)
    ensures MeasureOf(a, b).Finite? ==>
              var d := MeasureOf(a, b).value;
              && (exists p :: EditPath(p, a, b) && |p| == d + 1)
              && (forall p :: EditPath(p, a, b) ==> |p| >= d + 1)
  {
    DistanceZero(a, b);
    if MeasureOf(a, b).Finite? {
      var p := ShortestPath(a, b);
      forall q | EditPath(q, a, b) ensures |q| >= Distance(a, b) + 1 {
        PathIsLongEnough(q, a, b);
      }
    }
  }

  lemma NextEntry(a: Text, b: Text, i: nat, j: nat)
    requires 0 < i <= |a| && 0 < j <= |b|
    ensures Distance(a[..i], b[..j]) ==
              Min3(Distance(a[..i - 1], b[..j]) + 1, Distance(a[..i], b[..j - 1]) + 1,
                   Distance(a[..i - 1], b[..j - 1]) + if a[i - 1] == b[j - 1] then 0 else 1)
  {
    assert a[..i][..i - 1] == a[..i - 1] && b[..j][..j - 1] == b[..j - 1];
  }

  ghost predicate Row(row: seq<nat>, a: Text, b: Text, i: nat, upTo: nat)
    requires i <= |a| && upTo <= |b| + 1 && |row| == |b| + 1
  {
    forall k {:trigger row[k]} :: 0 <= k < upTo ==> row[k] == Distance(a[..i], b[..k])
  }

  /** The entry at `j` follows from the row above and the entry before it. */
  lemma RowGrows(above: seq<nat>, row: seq<nat>, a: Text, b: Text, i: nat, j: nat, value: nat)
    requires 0 < i <= |a| && 0 < j <= |b| && |above| == |row| == |b| + 1
    requires Row(above, a, b, i - 1, |b| + 1) && Row(row, a, b, i, j)
    requires value == Min3(above[j] + 1, row[j - 1] + 1, above[j - 1] + if a[i - 1] == b[j - 1] then 0 else 1)
    ensures Row(row[j := value], a, b, i, j + 1)
  {
    NextEntry(a, b, i, j);
  }

  lemma RowStarts(row: seq<nat>, a: Text, b: Text, i: nat)
    requires i <= |a| && |row| == |b| + 1 && row[0] == i
    ensures Row(row, a, b, i, 1)
  {
  }

  /** One round of the outer loop: the row of the first `i` characters of `a`. */
  method FillRow(a: Text, b: Text, i: nat, prev: array<nat>, curr: array<nat>)
    requires 0 < i <= |a| && prev != curr && prev.Length == curr.Length == |b| + 1
    requires Row(prev[..], a, b, i - 1, |b| + 1)
    modifies curr
    ensures Row(curr[..], a, b, i, |b| + 1)
  {
    ghost var above := prev[..];
    curr[0] := i;
    RowStarts(curr[..], a, b, i);
    for j := 1 to |b| + 1
      invariant prev[..] == above
      invariant Row(curr[..], a, b, i, j)
    {
      var cost := if a[i - 1] == b[j - 1] then 0 else 1;
      ghost var row := curr[..];
      var value := Min3(prev[j] + 1, curr[j - 1] + 1, prev[j - 1] + cost);
      RowGrows(above, row, a, b, i, j, value);
      curr[j] := value;
      assert curr[..] == row[j := value];
    }
  }

  // ---- The suggestion ----------------------------------------------------------

  predicate Closer(x: Measure, bound: nat) {
    x.Finite? && x.value < bound
  }

  /** The first of the known keys at the smallest distance, if that is at most one. */
  method SuggestKey(unknown: Text, known: seq<Text>) returns (r: Option<Text>, ghost at: nat)
    ensures r.None? <==> forall k :: k in known ==> !Closer(MeasureOf(unknown, k), 2)
    ensures r.Some? ==>
              && at < |known| && r.value == known[at] && Closer(MeasureOf(unknown, r.value), 2)
              && (forall j :: 0 <= j < |known| ==>
                  !Closer(MeasureOf(unknown, known[j]), MeasureOf(unknown, r.value).value))
              && (forall j :: 0 <= j < at ==>
                  !Closer(MeasureOf(unknown, known[j]), MeasureOf(unknown, r.value).value + 1))
  {
    r, at := None, 0;
    var bestDist := 2;
    for i := 0 to |known|
      invariant r.None? ==> bestDist == 2
      invariant r.Some? ==>
                  && at < i && r.value == known[at] && MeasureOf(unknown, r.value) == Finite(bestDist) && bestDist < 2
                  && forall j :: 0 <= j < at ==> !Closer(MeasureOf(unknown, known[j]), bestDist + 1)
      invariant forall j :: 0 <= j < i ==> !Closer(MeasureOf(unknown, known[j]), bestDist)
    {
      var d := Levenshtein(unknown, known[i]);
      if Closer(d, bestDist) {
        bestDist := d.value;
        r, at := Some(known[i]), i;
      }
    }
    if r.Some? {
      assert known[at] in known;
    }
  }

  /** A key is close enough to be suggested exactly when it is the unknown key
      itself or, up to the length limit, one edit away from it. */
  lemma CloseMeansOneEdit(a: Text, b: Text)
    ensures Closer(MeasureOf(a, b), 2) <==> a == b || (|a| <= MAX_LENGTH && |b| <= MAX_LENGTH && OneEdit(a, b))
  {
    DistanceZero(a, b);
    if OneEdit(a, b) {
      OneEditIsNear(a, b);
    }
    if a != b && Distance(a, b) == 1 {
      var p := ShortestPath(a, b);
      assert p[1..][0] == p[1];
    }
  }
}
