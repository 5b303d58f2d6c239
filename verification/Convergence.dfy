/** Convergence of a plan over its revisions: a ring of five, three signals, a score
    between zero and one, oscillation, and a projection of the rounds that remain. */
module Convergence {
  import opened Options
  import opened Selections

  const REVISION_BUFFER_SIZE := 5
  const SCORE_VERSION := 1

  datatype Diff = Diff(addedLines: nat, removedLines: nat, similarityScore: real)

  /** The fields of a revision's metrics that the score depends on. */
  datatype Revision = Revision(revisionId: string, lines: nat, diffVsPrior: Option<Diff>)

  datatype Signals = Signals(outputSizeTrend: real, changeVelocity: real, similarityTrend: real)

  datatype Oscillation = Oscillation(signFlips: nat, detected: bool)

  datatype Status = Diverging | Approaching | NearlyConverged | Converged | Oscillating

  datatype State = State(
    planSlug: string,
    scoreVersion: int,
    revisions: seq<Revision>,
    signals: Signals,
    oscillation: Oscillation,
    score: real,
    status: Status,
    estimatedRoundsRemaining: Option<int>)

  predicate ValidRevision(r: Revision) {
    r.diffVsPrior.Some? ==> 0.0 <= r.diffVsPrior.value.similarityScore <= 1.0
  }

  predicate ValidRevisions(revs: seq<Revision>) {
    forall i {:trigger revs[i]} :: 0 <= i < |revs| ==> ValidRevision(revs[i])
  }

  /** The schema of a state. */
  predicate Valid(s: State) {
    && s.planSlug != "" && s.scoreVersion == SCORE_VERSION
    && |s.revisions| <= REVISION_BUFFER_SIZE && ValidRevisions(s.revisions)
    && 0.0 <= s.score <= 1.0
    && (s.estimatedRoundsRemaining.Some? ==> 1 <= s.estimatedRoundsRemaining.value <= 10)
  }

  // ---- Signals -------------------------------------------------------------------

  function Abs(x: int): nat {
    if x < 0 then -x else x
  }

  /** The changes in size between the first `n` revisions, added up without their signs. */
  function SizeChanges(revs: seq<Revision>, n: nat): nat
    requires n <= |revs|
  {
    if n < 2 then 0 else SizeChanges(revs, n - 1) + Abs(revs[n - 1].lines - revs[n - 2].lines)
  }

  /** The changed lines of all those revisions but the first, as far as their diffs are known. */
  function ChangedLines(revs: seq<Revision>, n: nat): nat
    requires n <= |revs|
  {
    if n < 2 then 0
    else
      var diff := revs[n - 1].diffVsPrior;
      ChangedLines(revs, n - 1) + if diff.Some? then diff.value.addedLines + diff.value.removedLines else 0
  }

  function Similarities(revs: seq<Revision>, n: nat): seq<real>
    requires n <= |revs|
  {
    if n < 2 then []
    else
      var diff := revs[n - 1].diffVsPrior;
      if diff.Some? then Similarities(revs, n - 1) + [diff.value.similarityScore] else Similarities(revs, n - 1)
  }

  function Sum(xs: seq<real>): real {
    if xs == [] then 0.0 else Sum(xs[..|xs| - 1]) + xs[|xs| - 1]
  }

  function SignalsOf(revs: seq<Revision>): Signals {
    if |revs| < 2 then Signals(0.0, 0.0, 1.0)
    else
      var size := if revs[|revs| - 1].lines > 1 then revs[|revs| - 1].lines else 1;
      var pairs := |revs| - 1;
      var sims := Similarities(revs, |revs|);
      Signals(SizeChanges(revs, |revs|) as real / pairs as real / size as real,
              ChangedLines(revs, |revs|) as real / pairs as real / size as real,
              if sims != [] then Sum(sims) / |sims| as real else 1.0)
  }

  method ComputeSignals(revs: seq<Revision>) returns (signals: Signals)
    ensures signals == SignalsOf(revs)
  {
    if |revs| < 2 { return Signals(0.0, 0.0, 1.0); }
    var absSizeDelta, velocity, simSum, simCount := 0, 0, 0.0, 0;
    for i := 1 to |revs|
      invariant absSizeDelta == SizeChanges(revs, i) && velocity == ChangedLines(revs, i)
      invariant simSum == Sum(Similarities(revs, i)) && simCount == |Similarities(revs, i)|
    {
      var prev, cur := revs[i - 1], revs[i];
      absSizeDelta := absSizeDelta + Abs(cur.lines - prev.lines);
      if cur.diffVsPrior.Some? {
        velocity := velocity + cur.diffVsPrior.value.addedLines + cur.diffVsPrior.value.removedLines;
        SumAppend(Similarities(revs, i), cur.diffVsPrior.value.similarityScore);
        simSum := simSum + cur.diffVsPrior.value.similarityScore;
        simCount := simCount + 1;
      }
    }
    var denom := if revs[|revs| - 1].lines > 1 then revs[|revs| - 1].lines else 1;
    var pairs := |revs| - 1;
    signals := Signals(absSizeDelta as real / pairs as real / denom as real,
        velocity as real / pairs as real / denom as real,
                       if simCount > 0 then simSum / simCount as real else 1.0);
  }

  lemma SumAppend(xs: seq<real>, x: real)
    ensures Sum(xs + [x]) == Sum(xs) + x
  {
    assert (xs + [x])[..|xs|] == xs;
  }

  // ---- The score --------------------------------------------------------------------

  function Clamp01(x: real): (r: real)
    ensures 0.0 <= r <= 1.0
    ensures 0.0 <= x <= 1.0 ==> r == x
  {
    if x < 0.0 then 0.0 else if x > 1.0 then 1.0 else x
  }

  function Blend(s: Signals): real {
    0.5 * Clamp01(s.similarityTrend) + 0.3 * (1.0 - Clamp01(s.outputSizeTrend))
    + 0.2 * (1.0 - Clamp01(s.changeVelocity))
  }

  function ComputeScore(s: Signals, revCount: nat): real {
    if revCount < 2 then 0.0 else Clamp01(Blend(s))
  }

  function StatusForScore(score: real): Status {
    if score >= 0.9 then Converged
    else if score >= 0.75 then NearlyConverged
    else if score >= 0.5 then Approaching
    else Diverging
  }

  predicate InUnit(xs: seq<real>) {
    forall i {:trigger xs[i]} :: 0 <= i < |xs| ==> 0.0 <= xs[i] <= 1.0
  }

  lemma {:induction false} MeanIsBetween(xs: seq<real>)
    requires InUnit(xs)
    ensures 0.0 <= Sum(xs) <= |xs| as real
  {
    if xs != [] {
      MeanIsBetween(xs[..|xs| - 1]);
    }
  }

  lemma {:induction false} SimilaritiesAreBetween(revs: seq<Revision>, n: nat)
    requires ValidRevisions(revs) && n <= |revs|
    ensures InUnit(Similarities(revs, n))
  {
    if n >= 2 {
      SimilaritiesAreBetween(revs, n - 1);
    }
  }

  lemma DivideBetween(x: real, n: real)
    requires 0.0 <= x && n > 0.0
    ensures x / n >= 0.0 && (x / n == 0.0 <==> x == 0.0) && (x <= n <==> x / n <= 1.0)
  {
    assert x == (x / n) * n;
  }

  lemma DivideTwice(x: real, m: real, n: real)
    requires 0.0 <= x && m > 0.0 && n > 0.0
    ensures x / m / n >= 0.0 && (x / m / n == 0.0 <==> x == 0.0)
  {
    DivideBetween(x, m);
    DivideBetween(x / m, n);
  }

  /** Signals of valid revisions are not negative, the mean similarity is a similarity, and
      the churn signals vanish exactly when nothing has changed. */
  lemma SignalsAreInRange(revs: seq<Revision>)
    requires ValidRevisions(revs)
    ensures var s := SignalsOf(revs);
            && s.outputSizeTrend >= 0.0 && s.changeVelocity >= 0.0 && 0.0 <= s.similarityTrend <= 1.0
            && (s.outputSizeTrend == 0.0 <==> SizeChanges(revs, |revs|) == 0)
            && (s.changeVelocity == 0.0 <==> ChangedLines(revs, |revs|) == 0)
  {
    if |revs| >= 2 {
      var size := if revs[|revs| - 1].lines > 1 then revs[|revs| - 1].lines else 1;
      var pairs := |revs| - 1;
      DivideTwice(SizeChanges(revs, |revs|) as real, pairs as real, size as real);
      DivideTwice(ChangedLines(revs, |revs|) as real, pairs as real, size as real);
      SimilaritiesAreBetween(revs, |revs|);
      var sims := Similarities(revs, |revs|);
      MeanIsBetween(sims);
      if sims != [] {
        DivideBetween(Sum(sims), |sims| as real);
      }
    }
  }

  /** The weights add up to one, so that the last clamp never does anything; and the score
      is one exactly when the plan stands still and all known similarities are one. */
  lemma ScoreIsBlend(revs: seq<Revision>)
    requires ValidRevisions(revs) && |revs| >= 2
    ensures ComputeScore(SignalsOf(revs), |revs|) == Blend(SignalsOf(revs))
    ensures ComputeScore(SignalsOf(revs), |revs|) == 1.0 <==>
            SizeChanges(revs, |revs|) == 0 && ChangedLines(revs, |revs|) == 0 && SignalsOf(revs).similarityTrend == 1.0
  {
    SignalsAreInRange(revs);
  }

  // ---- What the signals say --------------------------------------------------------------

  function Total(ns: seq<nat>): nat {
    if ns == [] then 0 else ns[0] + Total(ns[1..])
  }

  function TotalReal(xs: seq<real>): real {
    if xs == [] then 0.0 else xs[0] + TotalReal(xs[1..])
  }

  /** By how many lines each revision differs in size from the one before. */
  function Steps(revs: seq<Revision>): seq<nat> {
    seq(if revs == [] then 0 else |revs| - 1, i requires 0 <= i < |revs| - 1 =>
      if revs[i].lines < revs[i + 1].lines then revs[i + 1].lines - revs[i].lines
          else revs[i].lines - revs[i + 1].lines)
  }

  /** How many lines each revision changed. */
  function Edits(revs: seq<Revision>): seq<nat> {
    seq(if revs == [] then 0 else |revs| - 1, i requires 0 <= i < |revs| - 1 =>
      var d := revs[i + 1].diffVsPrior; if d.None? then 0 else d.value.addedLines + d.value.removedLines)
  }

  lemma {:induction false} TotalAppend(ns: seq<nat>, n: nat)
    ensures Total(ns + [n]) == Total(ns) + n
  {
    if ns != [] {
      assert (ns + [n])[1..] == ns[1..] + [n];
      TotalAppend(ns[1..], n);
    }
  }

  lemma {:induction false} TotalRealIsSum(xs: seq<real>)
    ensures TotalReal(xs) == Sum(xs)
  {
    if xs != [] {
      var front, last := xs[..|xs| - 1], xs[|xs| - 1];
      TotalRealIsSum(front);
      TotalRealAppend(front, last);
      assert xs == front + [last];
    }
  }

  lemma {:induction false} TotalRealAppend(xs: seq<real>, x: real)
    ensures TotalReal(xs + [x]) == TotalReal(xs) + x
  {
    if xs != [] {
      assert (xs + [x])[1..] == xs[1..] + [x];
      TotalRealAppend(xs[1..], x);
    }
  }

  lemma StepsGrow(revs: seq<Revision>, n: nat)
    requires 1 < n <= |revs|
    ensures Steps(revs[..n]) == Steps(revs[..n - 1]) + [Abs(revs[n - 1].lines - revs[n - 2].lines)]
  {
  }

  lemma EditsGrow(revs: seq<Revision>, n: nat)
    requires 1 < n <= |revs|
    ensures var d := revs[n - 1].diffVsPrior;
            Edits(revs[..n]) == Edits(revs[..n - 1])
                                + [if d.Some? then d.value.addedLines + d.value.removedLines else 0]
  {
  }

  lemma {:induction false} SizeChangesAreTotal(revs: seq<Revision>, n: nat)
    requires 1 <= n <= |revs|
    ensures SizeChanges(revs, n) == Total(Steps(revs[..n]))
  {
    if n > 1 {
      SizeChangesAreTotal(revs, n - 1);
      StepsGrow(revs, n);
      TotalAppend(Steps(revs[..n - 1]), Abs(revs[n - 1].lines - revs[n - 2].lines));
    }
  }

  lemma {:induction false} ChangedLinesAreTotal(revs: seq<Revision>, n: nat)
    requires 1 <= n <= |revs|
    ensures ChangedLines(revs, n) == Total(Edits(revs[..n]))
  {
    if n > 1 {
      var d := revs[n - 1].diffVsPrior;
      ChangedLinesAreTotal(revs, n - 1);
      EditsGrow(revs, n);
      TotalAppend(Edits(revs[..n - 1]), if d.Some? then d.value.addedLines + d.value.removedLines else 0);
    }
  }

  /** The known similarities, in order. */
  ghost predicate KnownAt(revs: seq<Revision>, sims: seq<real>, at: seq<nat>) {
    && Chosen(at, |revs|) && |at| == |sims|
    && (forall j {:trigger at[j]} :: 0 <= j < |at| ==>
          at[j] >= 1 && revs[at[j]].diffVsPrior.Some? && revs[at[j]].diffVsPrior.value.similarityScore == sims[j])
    && (forall i {:trigger revs[i]} :: 1 <= i < |revs| && revs[i].diffVsPrior.Some? ==> i in at)
  }

  lemma {:induction false} SimilaritiesAreKnown(revs: seq<Revision>, n: nat) returns (at: seq<nat>)
    requires n <= |revs|
    ensures KnownAt(revs[..n], Similarities(revs, n), at)
  {
    at := [];
    if n >= 1 {
      var before := SimilaritiesAreKnown(revs, n - 1);
      var m: nat := n - 1;
      ChooseNext(before, m);
      at := if n >= 2 && revs[m].diffVsPrior.Some? then before + [m] else before;
      forall i | 1 <= i < n && revs[i].diffVsPrior.Some? ensures i in at {
        assert i < m ==> revs[..m][i].diffVsPrior.Some? && i in before;
        StaysChosen(before, m, i);
      }
      forall j | 0 <= j < |at|
        ensures && at[j] >= 1 && revs[..n][at[j]].diffVsPrior.Some?
                && revs[..n][at[j]].diffVsPrior.value.similarityScore == Similarities(revs, n)[j]
      {
        assert j < |before| ==> revs[..m][before[j]] == revs[before[j]] && before[j] >= 1;
      }
    }
  }

  /** The lines of the last revision, or one if it has none. */
  function LastSize(revs: seq<Revision>): nat
    requires revs != []
  {
    if revs[|revs| - 1].lines < 1 then 1 else revs[|revs| - 1].lines
  }

  /** The churn signals are the mean step in size and the mean edit, per line of the last
      revision, and the similarity is the mean of those that are known, or one. */
  lemma SignalsMean(revs: seq<Revision>) returns (sims: seq<real>, at: seq<nat>)
    requires |revs| >= 2
    ensures KnownAt(revs, sims, at)
    ensures var s, size, pairs := SignalsOf(revs), LastSize(revs) as real, (|revs| - 1) as real;
            && s.outputSizeTrend == Total(Steps(revs)) as real / pairs / size
            && s.changeVelocity == Total(Edits(revs)) as real / pairs / size
            && s.similarityTrend == if sims == [] then 1.0 else TotalReal(sims) / |sims| as real
  {
    sims := Similarities(revs, |revs|);
    at := SimilaritiesAreKnown(revs, |revs|);
    assert revs[..|revs|] == revs;
    SizeChangesAreTotal(revs, |revs|);
    ChangedLinesAreTotal(revs, |revs|);
    TotalRealIsSum(sims);
  }

  function AtMostOne(x: real): real {
    if x > 1.0 then 1.0 else x
  }

  /** Half of the score is similarity, three tenths steadiness in size, and two tenths
      steadiness in content; churn beyond the size of the plan counts as full churn. */
  lemma ScoreWeights(revs: seq<Revision>)
    requires ValidRevisions(revs)
    ensures var s, score := SignalsOf(revs), ComputeScore(SignalsOf(revs), |revs|);
            10.0 * score == if |revs| < 2 then 0.0
                            else 5.0 * s.similarityTrend + 3.0 * (1.0 - AtMostOne(s.outputSizeTrend))
                                 + 2.0 * (1.0 - AtMostOne(s.changeVelocity))
  {
    SignalsAreInRange(revs);
    if |revs| >= 2 {
      ScoreIsBlend(revs);
    }
  }

  /** The marks at which the status changes. */
  lemma StatusMarks(score: real)
    ensures StatusForScore(score) == Converged <==> 10.0 * score >= 9.0
    ensures StatusForScore(score) == NearlyConverged <==> 7.5 <= 10.0 * score < 9.0
    ensures StatusForScore(score) == Approaching <==> 5.0 <= 10.0 * score < 7.5
    ensures StatusForScore(score) == Diverging <==> 10.0 * score < 5.0
  {
  }

  // ---- Oscillation --------------------------------------------------------------------

  function Sign(x: int): int {
    if x > 0 then 1 else if x < 0 then -1 else 0
  }

  /** The directions of the changes in size between the first `n` revisions, without the
      steps that do not change it. */
  function Directions(revs: seq<Revision>, n: nat): (ds: seq<int>)
    requires n <= |revs|
    ensures |ds| <= if n < 2 then 0 else n - 1
  {
    if n < 2 then []
    else
      var sign := Sign(revs[n - 1].lines - revs[n - 2].lines);
      if sign == 0 then Directions(revs, n - 1) else Directions(revs, n - 1) + [sign]
  }

  /** How often a list changes from one element to the next. */
  function Changes(ds: seq<int>): (n: nat)
    ensures n <= if |ds| == 0 then 0 else |ds| - 1
  {
    if |ds| < 2 then 0 else Changes(ds[..|ds| - 1]) + if ds[|ds| - 1] != ds[|ds| - 2] then 1 else 0
  }

  function LastOrZero(ds: seq<int>): int {
    if ds == [] then 0 else ds[|ds| - 1]
  }

  lemma DirectionsNext(revs: seq<Revision>, i: nat)
    requires 1 <= i < |revs|
    ensures var sign := Sign(revs[i].lines - revs[i - 1].lines);
            Directions(revs, i + 1) == if sign == 0 then Directions(revs, i) else Directions(revs, i) + [sign]
  {
  }

  lemma ChangesNext(ds: seq<int>, d: int)
    ensures Changes(ds + [d]) == Changes(ds) + (if ds != [] && LastOrZero(ds) != d then 1 else 0)
    ensures LastOrZero(ds + [d]) == d
  {
    var more := ds + [d];
    assert more[..|more| - 1] == ds;
  }

  function OscillationOf(revs: seq<Revision>): Oscillation {
    if |revs| < 3 then Oscillation(0, false)
    else
      var flips := Changes(Directions(revs, |revs|));
      Oscillation(flips, flips > |revs| / 3)
  }

  /** The flips are the changes of sign among the changes in size that are not zero. */
  method DetectOscillation(revs: seq<Revision>) returns (o: Oscillation)
    ensures o == OscillationOf(revs)
  {
    if |revs| < 3 { return Oscillation(0, false); }
    var prevSign, flips := 0, 0;
    for i := 1 to |revs|
      invariant flips == Changes(Directions(revs, i)) && prevSign == LastOrZero(Directions(revs, i))
      invariant prevSign == 0 ==> Directions(revs, i) == []
    {
      var delta := revs[i].lines - revs[i - 1].lines;
      var sign := if delta > 0 then 1 else if delta < 0 then -1 else 0;
      DirectionsNext(revs, i);
      ChangesNext(Directions(revs, i), sign);
      if sign != 0 && prevSign != 0 && sign != prevSign { flips := flips + 1; }
      if sign != 0 { prevSign := sign; }
    }
    return Oscillation(flips, flips > |revs| / 3);
  }

  /** There are at most n - 2 flips in n revisions; so three revisions, which allow one flip,
      never count as oscillating, and it takes at least four. */
  lemma FlipsAreBounded(revs: seq<Revision>)
    ensures |revs| >= 2 ==> OscillationOf(revs).signFlips <= |revs| - 2
    ensures OscillationOf(revs).detected ==> |revs| >= 4 && OscillationOf(revs).signFlips >= 2
  {
  }

  function Delta(revs: seq<Revision>, j: nat): int
    requires 1 <= j < |revs|
  {
    revs[j].lines - revs[j - 1].lines
  }

  /** The size changes at `j` against the direction of its last change, at `i`. */
  predicate Turns(revs: seq<Revision>, i: nat, j: nat) {
    && 1 <= i < j < |revs|
    && ((Delta(revs, i) < 0 && Delta(revs, j) > 0) || (Delta(revs, i) > 0 && Delta(revs, j) < 0))
    && forall k {:trigger Delta(revs, k)} :: i < k < j ==> Delta(revs, k) == 0
  }

  predicate TurnsAt(revs: seq<Revision>, j: nat) {
    exists i {:trigger Turns(revs, i, j)} :: 1 <= i < j && Turns(revs, i, j)
  }

  lemma {:induction false} LastDirection(revs: seq<Revision>, n: nat) returns (i: nat)
    requires 1 <= n <= |revs|
    ensures if Directions(revs, n) == [] then forall k {:trigger Delta(revs, k)} :: 1 <= k < n ==> Delta(revs, k) == 0
            else && 1 <= i < n && LastOrZero(Directions(revs, n)) == Sign(Delta(revs, i)) && Delta(revs, i) != 0
                 && forall k {:trigger Delta(revs, k)} :: i < k < n ==> Delta(revs, k) == 0
  {
    i := 0;
    if n > 1 {
      i := LastDirection(revs, n - 1);
      assert Delta(revs, n - 1) == revs[n - 1].lines - revs[n - 2].lines;
      if Delta(revs, n - 1) != 0 {
        i := n - 1;
      }
    }
  }

  lemma TurnsIff(revs: seq<Revision>, j: nat)
    requires 1 <= j < |revs|
    ensures TurnsAt(revs, j) <==>
            var ds := Directions(revs, j); Delta(revs, j) != 0 && ds != [] && LastOrZero(ds) != Sign(Delta(revs, j))
  {
    var i := LastDirection(revs, j);
    var ds := Directions(revs, j);
    if Delta(revs, j) != 0 && ds != [] && LastOrZero(ds) != Sign(Delta(revs, j)) {
      assert Turns(revs, i, j);
    }
    assert ds != [] ==> Delta(revs, i) != 0;
    if m :| 1 <= m < j && Turns(revs, m, j) {
      assert Delta(revs, m) != 0;
    }
  }

  lemma {:induction false} ChangesCountTurns(revs: seq<Revision>, n: nat) returns (at: seq<nat>)
    requires 1 <= n <= |revs|
    ensures Chosen(at, n) && |at| == Changes(Directions(revs, n))
    ensures forall j {:trigger TurnsAt(revs, j)} :: 1 <= j < n ==> (j in at <==> TurnsAt(revs, j))
    ensures 0 !in at
  {
    at := [];
    if n > 1 {
      var before := ChangesCountTurns(revs, n - 1);
      var m: nat := n - 1;
      DirectionsNext(revs, m);
      TurnsIff(revs, m);
      ChangesNext(Directions(revs, m), Sign(Delta(revs, m)));
      ChooseNext(before, m);
      at := if TurnsAt(revs, m) then before + [m] else before;
      forall j {:trigger TurnsAt(revs, j)} | 1 <= j < n ensures j in at <==> TurnsAt(revs, j) {
        assert (before + [m])[|before|] == m && m !in before;
        assert j in before + [m] <==> j in before || j == m;
      }
    }
  }

  /** The flips are the places where the size turns, and a plan oscillates when there are more
      of them than a third of its revisions. */
  lemma FlipsAreTurns(revs: seq<Revision>) returns (at: seq<nat>)
    ensures Chosen(at, |revs|) && |at| == OscillationOf(revs).signFlips
    ensures forall j {:trigger TurnsAt(revs, j)} :: 1 <= j < |revs| && |revs| >= 3 ==> (j in at <==> TurnsAt(revs, j))
    ensures OscillationOf(revs).detected <==> |revs| >= 3 && 3 * |at| > |revs|
  {
    at := [];
    if |revs| >= 3 {
      at := ChangesCountTurns(revs, |revs|);
    }
  }

  /** A plan that only grows, or only shrinks, never flips. */
  lemma {:induction false} SteadyPlansDoNotFlip(revs: seq<Revision>, direction: int)
    requires forall i {:trigger Directions(revs, |revs|)[i]} :: 0 <= i < |Directions(revs, |revs|)| ==>
             Directions(revs, |revs|)[i] == direction
    ensures OscillationOf(revs) == Oscillation(0, false)
  {
    AllSameNoChanges(Directions(revs, |revs|), direction);
  }

  lemma {:induction false} AllSameNoChanges(ds: seq<int>, d: int)
    requires forall i {:trigger ds[i]} :: 0 <= i < |ds| ==> ds[i] == d
    ensures Changes(ds) == 0
  {
    if |ds| >= 2 {
      AllSameNoChanges(ds[..|ds| - 1], d);
    }
  }

  // ---- Appending a revision ---------------------------------------------------------------

  /** The last five revisions. */
  function Ring(revs: seq<Revision>): (ring: seq<Revision>)
    ensures |ring| <= REVISION_BUFFER_SIZE && |ring| <= |revs| && ring == revs[|revs| - |ring|..]
  {
    if |revs| > REVISION_BUFFER_SIZE then revs[|revs| - REVISION_BUFFER_SIZE..] else revs
  }

  function ScoreOf(revs: seq<Revision>): real {
    ComputeScore(SignalsOf(revs), |revs|)
  }

  /** The scores after the first two revisions, the first three, and so on. */
  function Scores(revs: seq<Revision>): seq<real> {
    if |revs| < 2 then [] else Scores(revs[..|revs| - 1]) + [ScoreOf(revs)]
  }

  predicate Climbing(scores: seq<real>) {
    |scores| >= 2 && (forall i :: 1 <= i < |scores| ==> scores[i - 1] <= scores[i]) && scores[0] < scores[|scores| - 1]
  }

  method IsMonotonicallyClimbing(scores: seq<real>) returns (climbing: bool)
    ensures climbing == Climbing(scores)
  {
    if |scores| < 2 { return false; }
    for i := 1 to |scores|
      invariant forall j :: 1 <= j < i ==> scores[j - 1] <= scores[j]
    {
      if scores[i] < scores[i - 1] { return false; }
    }
    return scores[|scores| - 1] > scores[0];
  }

  function ClampInt(x: real, lo: int, hi: int): int {
    var r := (x + 0.5).Floor;
    if r < lo then lo else if r > hi then hi else r
  }

  /** A projection along the line through the first and the last score. */
  function Projection(scores: seq<real>): Option<int>
    requires Climbing(scores)
  {
    var slope := (scores[|scores| - 1] - scores[0]) / (|scores| - 1) as real;
    if slope > 0.0 && scores[|scores| - 1] < 0.9 then Some(ClampInt((0.9 - scores[|scores| - 1]) / slope, 1, 10))
        else None
  }

  function EstimateOf(revs: seq<Revision>): Option<int> {
    if |revs| == REVISION_BUFFER_SIZE && Climbing(Scores(revs)) then Projection(Scores(revs)) else None
  }

  function StateOf(planSlug: string, revs: seq<Revision>): State {
    var oscillation := OscillationOf(revs);
    State(planSlug, SCORE_VERSION, revs, SignalsOf(revs), oscillation, ScoreOf(revs),
          if oscillation.detected then Oscillating else StatusForScore(ScoreOf(revs)),
          if oscillation.detected then None else EstimateOf(revs))
  }

  datatype Appended = Appended(state: State) | VersionMismatch(got: int) | SchemaRejects

  method ComputeScores(revs: seq<Revision>) returns (scores: seq<real>)
    ensures scores == Scores(revs)
  {
    scores := [];
    var i := 2;
    while i <= |revs|
      invariant 2 <= i && (if i <= |revs| + 1 then scores == Scores(revs[..i - 1]) else scores == Scores(revs))
    {
      assert revs[..i][..i - 1] == revs[..i - 1];
      var signals := ComputeSignals(revs[..i]);
      scores := scores + [ComputeScore(signals, i)];
      i := i + 1;
    }
    assert revs[..|revs|] == revs;
  }

  method Estimate(revs: seq<Revision>) returns (estimate: Option<int>)
    ensures estimate == EstimateOf(revs)
  {
    if |revs| != REVISION_BUFFER_SIZE { return None; }
    var scores := ComputeScores(revs);
    var climbing := IsMonotonicallyClimbing(scores);
    return if climbing then Projection(scores) else None;
  }

  method AppendRevision(state: Option<State>, metrics: Revision, planSlug: string) returns (r: Appended)
    ensures state.Some? && state.value.scoreVersion != SCORE_VERSION ==> r == VersionMismatch(state.value.scoreVersion)
    ensures !(state.Some? && state.value.scoreVersion != SCORE_VERSION) ==>
              var next := StateOf(planSlug, Ring((if state.Some? then state.value.revisions else []) + [metrics]));
              r == if Valid(next) then Appended(next) else SchemaRejects
  {
    if state.Some? && state.value.scoreVersion != SCORE_VERSION { return VersionMismatch(state.value.scoreVersion); }
    var all := (if state.Some? then state.value.revisions else []) + [metrics];
    var ring := if |all| > REVISION_BUFFER_SIZE then all[|all| - REVISION_BUFFER_SIZE..] else all;
    var signals := ComputeSignals(ring);
    var oscillation := DetectOscillation(ring);
    var score := ComputeScore(signals, |ring|);
    var next;
    if oscillation.detected {
      next := State(planSlug, SCORE_VERSION, ring, signals, oscillation, score, Oscillating, None);
    } else {
      var estimate := Estimate(ring);
      next := State(planSlug, SCORE_VERSION, ring, signals, oscillation, score, StatusForScore(score), estimate);
    }
    return if Valid(next) then Appended(next) else SchemaRejects;
  }

  /** The schema check at the end rejects a state only for an empty slug or for a revision whose
      similarity is none: the score is always between zero and one, and a projection between one
      and ten. */
  lemma SchemaRejectsIff(planSlug: string, revs: seq<Revision>)
    requires |revs| <= REVISION_BUFFER_SIZE
    ensures Valid(StateOf(planSlug, revs)) <==>
            && planSlug != ""
            && forall i {:trigger revs[i]} :: 0 <= i < |revs| ==>
                 var d := revs[i].diffVsPrior;
                 d.None? || (d.value.similarityScore >= 0.0 && d.value.similarityScore <= 1.0)
  {
  }

  lemma StatesAreValid(planSlug: string, revs: seq<Revision>)
    requires planSlug != "" && ValidRevisions(revs) && |revs| <= REVISION_BUFFER_SIZE
    ensures Valid(StateOf(planSlug, revs))
  {
  }

  /** The k-th score is that of the first k + 2 revisions. */
  lemma {:induction false} ScoresByPlace(revs: seq<Revision>, k: nat)
    ensures |Scores(revs)| == if |revs| == 0 then 0 else |revs| - 1
    ensures k + 2 <= |revs| ==> Scores(revs)[k] == ComputeScore(SignalsOf(revs[..k + 2]), k + 2)
  {
    if |revs| >= 2 {
      var front := revs[..|revs| - 1];
      ScoresByPlace(front, k);
      assert k + 2 < |revs| ==> front[..k + 2] == revs[..k + 2];
      assert k + 2 == |revs| ==> revs[..k + 2] == revs;
    }
  }

  predicate NeverFalls(scores: seq<real>) {
    forall i, j :: 0 <= i <= j < |scores| ==> scores[i] <= scores[j]
  }

  predicate RisesAt(scores: seq<real>, i: int) {
    1 <= i < |scores| && scores[i - 1] < scores[i]
  }

  lemma {:induction false} StepsNeverFall(scores: seq<real>, i: int, j: int)
    requires forall k :: 1 <= k < |scores| ==> scores[k - 1] <= scores[k]
    requires 0 <= i <= j < |scores|
    ensures scores[i] <= scores[j]
    decreases j
  {
    if i < j {
      StepsNeverFall(scores, i, j - 1);
    }
  }

  lemma {:induction false} FlatWithoutRise(scores: seq<real>, j: int)
    requires forall k :: 1 <= k < |scores| ==> scores[k - 1] <= scores[k]
    requires forall k {:trigger RisesAt(scores, k)} :: !RisesAt(scores, k)
    requires 0 <= j < |scores|
    ensures scores[0] == scores[j]
  {
    if j > 0 {
      FlatWithoutRise(scores, j - 1);
      assert !RisesAt(scores, j);
    }
  }

  /** Scores climb exactly when no later one is below an earlier one and they rise somewhere. */
  lemma ClimbingIff(scores: seq<real>)
    ensures Climbing(scores) <==> NeverFalls(scores) && exists i :: RisesAt(scores, i)
  {
    if Climbing(scores) {
      forall i, j | 0 <= i <= j < |scores| ensures scores[i] <= scores[j] {
        StepsNeverFall(scores, i, j);
      }
      if forall i {:trigger RisesAt(scores, i)} :: !RisesAt(scores, i) {
        FlatWithoutRise(scores, |scores| - 1);
      }
    }
  }

  lemma LastScore(revs: seq<Revision>)
    requires |revs| >= 2
    ensures Scores(revs) != [] && Scores(revs)[|Scores(revs)| - 1] == ScoreOf(revs)
  {
  }

  lemma ProjectionIff(scores: seq<real>)
    requires Climbing(scores)
    ensures Projection(scores).Some? <==> scores[|scores| - 1] < 0.9
    ensures Projection(scores).Some? ==> 1 <= Projection(scores).value <= 10
  {
    DivideBetween(scores[|scores| - 1] - scores[0], (|scores| - 1) as real);
  }

  /** The projection is the number of rounds along the line from the first to the last score,
      rounded to the nearest, between one and ten. */
  lemma ProjectionRounds(scores: seq<real>)
    requires Climbing(scores) && scores[|scores| - 1] < 0.9
    ensures Projection(scores).Some?
    ensures var r, n := Projection(scores).value, |scores| - 1;
            var slope := (scores[n] - scores[0]) / n as real;
            var rounds := (0.9 - scores[n]) / slope;
            && 1 <= r <= 10
            && (1 < r ==> r as real - 0.5 <= rounds) && (r < 10 ==> rounds < r as real + 0.5)
  {
    ProjectionIff(scores);
  }

  /** A state says what its revisions say: status by the score unless the plan oscillates. */
  lemma StateSays(planSlug: string, revs: seq<Revision>)
    ensures var s := StateOf(planSlug, revs);
            && s.planSlug == planSlug && s.scoreVersion == 1 && s.revisions == revs && s.signals == SignalsOf(revs)
            && s.score == ComputeScore(s.signals, |revs|) && s.oscillation == OscillationOf(revs)
            && (s.status == Oscillating <==> s.oscillation.detected)
            && (s.status != Oscillating ==> s.status == StatusForScore(s.score))
  {
  }

  lemma EstimateIff(revs: seq<Revision>)
    ensures EstimateOf(revs).Some? <==> |revs| == REVISION_BUFFER_SIZE && Climbing(Scores(revs)) && ScoreOf(revs) < 0.9
  {
    if |revs| == REVISION_BUFFER_SIZE && Climbing(Scores(revs)) {
      LastScore(revs);
      ProjectionIff(Scores(revs));
    }
  }

  /** A projection comes only with five revisions whose scores climb, below the mark for
      converged; so a state that is converged or oscillating never has one. */
  lemma ProjectionMeans(planSlug: string, revs: seq<Revision>)
    ensures var s := StateOf(planSlug, revs);
            s.estimatedRoundsRemaining.Some? <==>
            |revs| == REVISION_BUFFER_SIZE && Climbing(Scores(revs)) && s.status != Converged && s.status != Oscillating
  {
    EstimateIff(revs);
    var score := ScoreOf(revs);
    assert StatusForScore(score) != Oscillating && (StatusForScore(score) == Converged <==> score >= 0.9);
  }

  // ---- Runs -------------------------------------------------------------------------------

  /** The state after the revisions of a run, one appended after another; `next` gives the
      state for the revisions in the buffer. */
  function RunOf(next: seq<Revision> -> State, metrics: seq<Revision>): Option<State> {
    if metrics == [] then None
    else Some(next(Appending(RunOf(next, metrics[..|metrics| - 1]), metrics[|metrics| - 1])))
  }

  /** The buffer after one more revision. */
  function Appending(prior: Option<State>, m: Revision): seq<Revision> {
    Ring((if prior.Some? then prior.value.revisions else []) + [m])
  }

  lemma RingAppend(all: seq<Revision>, m: Revision)
    ensures Ring(Ring(all) + [m]) == Ring(all + [m])
  {
  }

  lemma AppendingIsRing(prior: Option<State>, before: seq<Revision>, m: Revision)
    requires if before == [] then prior.None? else prior.Some? && prior.value.revisions == Ring(before)
    ensures Appending(prior, m) == Ring(before + [m])
  {
    if before == [] {
      assert [] + [m] == before + [m];
    } else {
      RingAppend(before, m);
    }
  }

  lemma {:induction false} RunIsRing(next: seq<Revision> -> State, metrics: seq<Revision>)
    requires metrics != [] && forall revs {:trigger next(revs)} :: next(revs).revisions == revs
    ensures RunOf(next, metrics) == Some(next(Ring(metrics)))
  {
    var before, last := metrics[..|metrics| - 1], metrics[|metrics| - 1];
    assert metrics == before + [last];
    if before != [] {
      RunIsRing(next, before);
    }
    AppendingIsRing(RunOf(next, before), before, last);
  }

  function RunState(planSlug: string, metrics: seq<Revision>): Option<State> {
    RunOf(revs => StateOf(planSlug, revs), metrics)
  }

  lemma StateFacts(planSlug: string, ring: seq<Revision>)
    requires planSlug != "" && ValidRevisions(ring) && |ring| <= REVISION_BUFFER_SIZE
    ensures var s := StateOf(planSlug, ring);
            Valid(s) && s.revisions == ring && (|ring| >= 2 ==> s.oscillation.signFlips <= |ring| - 2)
  {
    StatesAreValid(planSlug, ring);
    FlipsAreBounded(ring);
  }

  /** After any run of k appends, the buffer holds the last min(k, 5) revisions, the state
      satisfies the schema, and there are at most n - 2 flips among n revisions. */
  lemma RunKeepsLastFive(planSlug: string, metrics: seq<Revision>)
    requires metrics != [] && planSlug != "" && ValidRevisions(metrics)
    ensures var s, n := RunState(planSlug, metrics), if |metrics| < 5 then |metrics| else 5;
            && s.Some? && Valid(s.value) && s.value.revisions == metrics[|metrics| - n..]
            && (n >= 2 ==> s.value.oscillation.signFlips <= n - 2)
  {
    var next := (revs: seq<Revision>) => StateOf(planSlug, revs);
    RunIsRing(next, metrics);
    StateFacts(planSlug, Ring(metrics));
  }
}
