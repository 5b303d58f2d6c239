/** Which elements of a list went into another one: positions in ascending order. */
module Selections {

  /** Some of the positions below `n`, in ascending order. */
  ghost predicate Chosen(at: seq<nat>, n: nat) {
    && (forall j {:trigger at[j]} :: 0 <= j < |at| ==> at[j] < n)
    && (forall j, k {:trigger at[j], at[k]} :: 0 <= j < k < |at| ==> at[j] < at[k])
  }

  lemma ChooseNext(at: seq<nat>, n: nat)
    requires Chosen(at, n)
    ensures Chosen(at, n + 1) && Chosen(at + [n], n + 1)
  {
  }

  lemma StaysChosen(at: seq<nat>, n: nat, i: nat)
    requires i in at || i == n
    ensures i in at + [n]
  {
    assert (at + [n])[|at|] == n;
    if i in at {
      var j :| 0 <= j < |at| && at[j] == i;
      assert (at + [n])[j] == i;
    }
  }

  /** Which positions there are after position `n` was taken or not. */
  lemma TakenOrNot(at: seq<nat>, n: nat, i: nat, taken: bool)
    requires Chosen(at, n)
    ensures i in (if taken then at + [n] else at) <==> i in at || (taken && i == n)
    ensures n !in at
  {
    assert (at + [n])[|at|] == n;
  }
}
