/** How many lines a revision added and removed: a comparison of the lines as multisets. */
module LineDiff {
  import opened Splitting

  /** `split(/\r?\n/)` */
  function SplitLines(s: string): seq<string> {
    var parts := Split('\n', s);
    seq(|parts|, i requires 0 <= i < |parts| => if i + 1 < |parts| then WithoutReturn(parts[i]) else parts[i])
  }

  function WithoutReturn(line: string): string {
    if line != [] && line[|line| - 1] == '\r' then line[..|line| - 1] else line
  }

  lemma {:induction false} SplitIsHeadAndTail(line: string, rest: string)
    requires '\n' !in line
    ensures SplitLines((line + ['\n']) + rest) == [WithoutReturn(line)] + SplitLines(rest)
  {
    SplitFirst('\n', line, rest);
    var all, tail := Split('\n', line + ['\n'] + rest), Split('\n', rest);
    forall i | 0 <= i < |all|
      ensures SplitLines((line + ['\n']) + rest)[i] == ([WithoutReturn(line)] + SplitLines(rest))[i] {
      assert i > 0 ==> all[i] == tail[i - 1];
    }
  }

  /** Lines end at a line feed, and a carriage return right before it goes with it; what
      follows the last line feed is the last line, with all it has. */
  lemma LinesEndAtBreaks(line: string, rest: string)
    requires '\n' !in line
    ensures SplitLines(line) == [line]
    ensures SplitLines(((line + ['\r']) + ['\n']) + rest) == [line] + SplitLines(rest)
    ensures line == [] || line[|line| - 1] != '\r' ==> SplitLines((line + ['\n']) + rest) == [line] + SplitLines(rest)
  {
    SplitClean('\n', line);
    SplitIsHeadAndTail(line, rest);
    SplitIsHeadAndTail(line + ['\r'], rest);
    assert (line + ['\r'])[..|line|] == line;
  }

  /** The map counts what is in the multiset; a key may have count zero. */
  ghost predicate Counts<L(!new)>(counts: map<L, nat>, m: multiset<L>) {
    forall x {:trigger m[x]} :: m[x] == if x in counts then counts[x] else 0
  }

  ghost predicate Lists<L(!new)>(keys: seq<L>, counts: map<L, nat>) {
    && (forall i, j {:trigger keys[i], keys[j]} :: 0 <= i < j < |keys| ==> keys[i] != keys[j])
    && (forall x :: x in keys <==> x in counts)
  }

  function Total<L(==)>(keys: seq<L>, counts: map<L, nat>): nat
    requires forall x :: x in keys ==> x in counts
  {
    if keys == [] then 0 else Total(keys[..|keys| - 1], counts) + counts[keys[|keys| - 1]]
  }

  lemma {:induction false} TotalIsSize<L(!new)>(keys: seq<L>, counts: map<L, nat>, m: multiset<L>)
    requires Lists(keys, counts) && Counts(counts, m)
    ensures Total(keys, counts) == |m|
    decreases |keys|
  {
    if keys == [] {
      forall x ensures m[x] == 0 {
      }
      assert m == multiset{};
    } else {
      var before, last := keys[..|keys| - 1], keys[|keys| - 1];
      var fewer, rest := counts - {last}, m[last := 0];
      assert last !in before by {
        assert forall i :: 0 <= i < |before| ==> keys[i] != keys[|keys| - 1];
      }
      assert forall x :: x in keys <==> x in before || x == last;
      TotalIsSize(before, fewer, rest);
      TotalIgnores(before, fewer, counts);
      assert m == rest + multiset{}[last := m[last]];
      assert |multiset{}[last := m[last]]| == m[last];
    }
  }

  lemma {:induction false} TotalIgnores<L>(keys: seq<L>, fewer: map<L, nat>, counts: map<L, nat>)
    requires forall x :: x in keys ==> x in fewer && x in counts && fewer[x] == counts[x]
    ensures Total(keys, fewer) == Total(keys, counts)
  {
    if keys != [] {
      TotalIgnores(keys[..|keys| - 1], fewer, counts);
    }
  }

  method CountLines<L(==,!new)>(a: seq<L>) returns (counts: map<L, nat>, keys: seq<L>)
    ensures Counts(counts, multiset(a)) && Lists(keys, counts)
  {
    counts, keys := map[], [];
    for i := 0 to |a|
      invariant Counts(counts, multiset(a[..i])) && Lists(keys, counts)
    {
      assert a[..i + 1] == a[..i] + [a[i]];
      if a[i] in counts {
        counts := counts[a[i] := counts[a[i]] + 1];
      } else {
        keys := keys + [a[i]];
        counts := counts[a[i] := 1];
      }
    }
    assert a[..|a|] == a;
  }

  lemma MatchLine<L(!new)>(a: multiset<L>, b: multiset<L>, x: L)
    ensures (a - b)[x] > 0 ==> a - (b + multiset{x}) == (a - b) - multiset{x} && (b + multiset{x}) - a == b - a
    ensures (a - b)[x] == 0 ==> a - (b + multiset{x}) == a - b && (b + multiset{x}) - a == (b - a) + multiset{x}
  {
  }

  lemma CountsDown<L(!new)>(counts: map<L, nat>, m: multiset<L>, x: L)
    requires Counts(counts, m) && x in counts && counts[x] > 0
    ensures Counts(counts[x := counts[x] - 1], m - multiset{x})
  {
  }

  /** The lines of `a` without those in `seen` are still to be matched. */
  ghost predicate Matching<L(!new)>(counts: map<L, nat>, added: nat, a: multiset<L>, seen: multiset<L>) {
    Counts(counts, a - seen) && added == |seen - a|
  }

  lemma MatchStep<L(!new)>(counts: map<L, nat>, added: nat, a: multiset<L>, seen: multiset<L>, x: L)
    requires Matching(counts, added, a, seen)
    ensures if x in counts && counts[x] > 0 then Matching(counts[x := counts[x] - 1], added, a, seen + multiset{x})
            else Matching(counts, added + 1, a, seen + multiset{x})
  {
    MatchLine(a, seen, x);
    assert (a - seen)[x] == if x in counts then counts[x] else 0;
    if x in counts && counts[x] > 0 {
      CountsDown(counts, a - seen, x);
    }
  }

  /** What is left of the counts when the lines are taken out one by one, and how many
      of them were not there. */
  function Matched<L(==)>(counts: map<L, nat>, lines: seq<L>): (map<L, nat>, nat) {
    if lines == [] then (counts, 0)
    else
      var last := lines[|lines| - 1];
      var (left, added) := Matched(counts, lines[..|lines| - 1]);
      if last in left && left[last] > 0 then (left[last := left[last] - 1], added) else (left, added + 1)
  }

  lemma LastIsOneMore<L>(lines: seq<L>)
    requires lines != []
    ensures multiset(lines) == multiset(lines[..|lines| - 1]) + multiset{lines[|lines| - 1]}
  {
    assert lines == lines[..|lines| - 1] + [lines[|lines| - 1]];
  }

  lemma {:induction false} MatchedIsDifference<L(!new)>(counts: map<L, nat>, keys: seq<L>, a: multiset<L>,
      lines: seq<L>)
    requires Counts(counts, a) && Lists(keys, counts)
    ensures var (left, added) := Matched(counts, lines);
            Matching(left, added, a, multiset(lines)) && Lists(keys, left)
    decreases |lines|
  {
    if lines == [] {
      assert a - multiset{} == a && multiset{} - a == multiset{};
    } else {
      var before, last := lines[..|lines| - 1], lines[|lines| - 1];
      var (left, added) := Matched(counts, before);
      MatchedIsDifference(counts, keys, a, before);
      MatchStep(left, added, a, multiset(before), last);
      LastIsOneMore(lines);
    }
  }

  method MatchLines<L(==)>(start: map<L, nat>, lines: seq<L>) returns (counts: map<L, nat>, added: nat)
    ensures (counts, added) == Matched(start, lines)
  {
    counts, added := start, 0;
    for i := 0 to |lines|
      invariant (counts, added) == Matched(start, lines[..i])
    {
      assert lines[..i + 1][..i] == lines[..i];
      var c := if lines[i] in counts then counts[lines[i]] else 0;
      if c > 0 {
        counts := counts[lines[i] := c - 1];
      } else {
        added := added + 1;
      }
    }
    assert lines[..|lines|] == lines;
  }

  method SumCounts<L(==,!new)>(keys: seq<L>, counts: map<L, nat>) returns (sum: nat)
    requires Lists(keys, counts)
    ensures sum == Total(keys, counts)
  {
    sum := 0;
    for k := 0 to |keys|
      invariant sum == Total(keys[..k], counts)
    {
      assert keys[..k + 1][..k] == keys[..k];
      sum := sum + counts[keys[k]];
    }
    assert keys[..|keys|] == keys;
  }

  /** The sizes of the two multiset differences of the lines. */
  method DiffLines<L(==,!new)>(a: seq<L>, b: seq<L>) returns (added: nat, removed: nat)
    ensures added == |multiset(b) - multiset(a)| && removed == |multiset(a) - multiset(b)|
  {
    var counts, keys := CountLines(a);
    MatchedIsDifference(counts, keys, multiset(a), b);
    counts, added := MatchLines(counts, b);
    removed := SumCounts(keys, counts);
    TotalIsSize(keys, counts, multiset(a) - multiset(b));
  }

  method DiffLineCounts(prior: string, current: string) returns (addedLines: nat, removedLines: nat)
    ensures addedLines == |multiset(SplitLines(current)) - multiset(SplitLines(prior))|
    ensures removedLines == |multiset(SplitLines(prior)) - multiset(SplitLines(current))|
  {
    addedLines, removedLines := DiffLines(SplitLines(prior), SplitLines(current));
  }

  /** Prior lines with the added ones are the current lines with the removed ones, so that
      the two counts differ by the difference in length; both are zero exactly when the
      current lines are a rearrangement of the prior ones. */
  lemma LinesAreConserved<L(!new)>(a: seq<L>, b: seq<L>)
    ensures var ma, mb := multiset(a), multiset(b);
            && ma + (mb - ma) == mb + (ma - mb)
            && |a| + |mb - ma| == |b| + |ma - mb|
            && (|mb - ma| == 0 && |ma - mb| == 0 <==> ma == mb)
  {
    var ma, mb := multiset(a), multiset(b);
    assert ma + (mb - ma) == mb + (ma - mb);
    assert |ma + (mb - ma)| == |ma| + |mb - ma| && |mb + (ma - mb)| == |mb| + |ma - mb|;
    assert |ma| == |a| && |mb| == |b|;
    if |mb - ma| == 0 && |ma - mb| == 0 {
      assert mb - ma == multiset{} && ma - mb == multiset{};
      assert ma == ma + (mb - ma) == mb + (ma - mb) == mb;
    }
  }
}
