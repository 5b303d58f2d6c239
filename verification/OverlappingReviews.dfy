/** Calls that apply the verdict of one range at the same time: they push into one shared
    list, while each counts its own way through the findings. */
module OverlappingReviews {

  /** `places` says, for each id in the shared list, which finding it was filed for; `at[k]`
      is the finding that call `k` is at, and `others[k]` how many ids other calls have pushed
      since it began. */
  datatype Calls = Calls(places: seq<nat>, at: seq<nat>, others: seq<nat>)

  /** A call begins, gets an id for its finding, or fails. */
  datatype Turn = Enter | Accept(call: nat) | Stop(call: nat)

  predicate Running(total: nat, c: Calls, k: nat) {
    k < |c.at| && k < |c.others| && c.at[k] < total
  }

  function PushedBy(others: seq<nat>, k: nat): seq<nat> {
    seq(|others|, j requires 0 <= j < |others| => if j == k then others[j] else others[j] + 1)
  }

  /** One turn, for a verdict with `total` findings; one that does not apply changes nothing. */
  function NextTurn(total: nat, c: Calls, t: Turn): Calls {
    match t
    case Enter => Calls(c.places, c.at + [|c.places|], c.others + [0])
    case Accept(k) =>
      if !Running(total, c, k) then c
      else Calls(c.places + [c.at[k]], c.at[k := c.at[k] + 1], PushedBy(c.others, k))
    case Stop(k) => if !Running(total, c, k) then c else c.(at := c.at[k := total])
  }

  /** After the first `n` turns, with `done` ids recorded before. */
  function After(total: nat, done: nat, turns: seq<Turn>, n: nat): Calls
    requires n <= |turns|
  {
    if n == 0 then Calls(seq(done, i => i), [], []) else NextTurn(total, After(total, done, turns, n - 1), turns[n - 1])
  }

  predicate NoneTwice(places: seq<nat>) {
    forall i, j {:trigger places[i], places[j]} :: 0 <= i < j < |places| ==> places[i] != places[j]
  }

  predicate InPlace(places: seq<nat>) {
    forall i {:trigger places[i]} :: 0 <= i < |places| ==> places[i] == i
  }

  /** Every call knows how far the list was when it began. */
  ghost predicate Counted(total: nat, c: Calls) {
    && |c.at| == |c.others|
    && forall k {:trigger Running(total, c, k)} :: 0 <= k < |c.at| && Running(total, c, k) ==>
        |c.places| == c.at[k] + c.others[k]
  }

  lemma TurnKeepsCounted(total: nat, c: Calls, t: Turn)
    requires Counted(total, c)
    ensures Counted(total, NextTurn(total, c, t))
  {
    var d := NextTurn(total, c, t);
    forall k | 0 <= k < |d.at| && Running(total, d, k) ensures |d.places| == d.at[k] + d.others[k] {
      assert k < |c.at| ==> Running(total, c, k);
    }
  }

  lemma {:induction false} AlwaysCounted(total: nat, done: nat, turns: seq<Turn>, n: nat)
    requires n <= |turns|
    ensures Counted(total, After(total, done, turns, n))
  {
    if n > 0 {
      AlwaysCounted(total, done, turns, n - 1);
      TurnKeepsCounted(total, After(total, done, turns, n - 1), turns[n - 1]);
    }
  }

  /** Turn `n` is a call filing a finding although another one has pushed since it began. */
  predicate LateAt(total: nat, done: nat, turns: seq<Turn>, n: nat) {
    n < |turns| && turns[n].Accept?
    && var c, k := After(total, done, turns, n), turns[n].call;
       Running(total, c, k) && c.others[k] > 0
  }

  lemma {:induction false} PlacesGrow(total: nat, done: nat, turns: seq<Turn>, m: nat, n: nat)
    requires m <= n <= |turns|
    ensures After(total, done, turns, m).places <= After(total, done, turns, n).places
    decreases n
  {
    if m < n {
      PlacesGrow(total, done, turns, m, n - 1);
    }
  }

  lemma {:induction false} InPlaceUntilLate(total: nat, done: nat, turns: seq<Turn>, n: nat)
    requires n <= |turns| && forall m {:trigger LateAt(total, done, turns, m)} :: 0 <= m < n ==>
             !LateAt(total, done, turns, m)
    ensures InPlace(After(total, done, turns, n).places)
  {
    if n > 0 {
      InPlaceUntilLate(total, done, turns, n - 1);
      AlwaysCounted(total, done, turns, n - 1);
      assert !LateAt(total, done, turns, n - 1);
    }
  }

  /** The first late turn files a finding that has its id already. */
  lemma LateFilesTwice(total: nat, done: nat, turns: seq<Turn>, n: nat)
    requires LateAt(total, done, turns, n)
    requires forall m {:trigger LateAt(total, done, turns, m)} :: 0 <= m < n ==> !LateAt(total, done, turns, m)
    ensures !NoneTwice(After(total, done, turns, n + 1).places)
  {
    var c, k := After(total, done, turns, n), turns[n].call;
    InPlaceUntilLate(total, done, turns, n);
    AlwaysCounted(total, done, turns, n);
    var places := After(total, done, turns, n + 1).places;
    assert places == c.places + [c.at[k]];
    assert places[c.at[k]] == c.at[k] == places[|c.places|];
  }

  lemma {:induction false} FirstLate(total: nat, done: nat, turns: seq<Turn>, n: nat) returns (first: nat)
    requires LateAt(total, done, turns, n)
    ensures first <= n && LateAt(total, done, turns, first)
    ensures forall m {:trigger LateAt(total, done, turns, m)} :: 0 <= m < first ==> !LateAt(total, done, turns, m)
  {
    if m :| 0 <= m < n && LateAt(total, done, turns, m) {
      first := FirstLate(total, done, turns, m);
    } else {
      first := n;
    }
  }

  /** However calls on one range interleave and fail, no finding gets a second bead if and
      only if no call files a finding after another one has pushed an id since it began. Then
      the ids stand at the places of their findings. */
  lemma FiledOnceIff(total: nat, done: nat, turns: seq<Turn>)
    ensures var places := After(total, done, turns, |turns|).places;
            && (NoneTwice(places) <==>
                forall n {:trigger LateAt(total, done, turns, n)} :: 0 <= n < |turns| ==>
                !LateAt(total, done, turns, n))
            && (NoneTwice(places) <==> InPlace(places))
  {
    if n :| 0 <= n < |turns| && LateAt(total, done, turns, n) {
      var first := FirstLate(total, done, turns, n);
      LateFilesTwice(total, done, turns, first);
      PlacesGrow(total, done, turns, first + 1, |turns|);
      var early, late := After(total, done, turns, first + 1).places, After(total, done, turns, |turns|).places;
      var i, j :| 0 <= i < j < |early| && early[i] == early[j];
      assert late[i] == early[i] && late[j] == early[j];
    } else {
      InPlaceUntilLate(total, done, turns, |turns|);
    }
  }

  /** Two calls that begin together on a range with one finding make two beads for it. */
  lemma TwoCallsFileTwice()
    ensures After(1, 0, [Enter, Enter, Accept(0), Accept(1)], 4).places == [0, 0]
  {
    var turns := [Enter, Enter, Accept(0), Accept(1)];
    assert After(1, 0, turns, 1) == Calls([], [0], [0]);
    assert After(1, 0, turns, 2) == Calls([], [0, 0], [0, 0]);
    assert After(1, 0, turns, 3) == Calls([0], [1, 0], [0, 1]);
  }
}
