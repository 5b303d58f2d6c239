/** Values that may be absent. */
module Options {
  import opened Selections

  datatype Option<+T> = None | Some(value: T) {
    function GetOr(default: T): T {
      if this.Some? then value else default
    }
  }

  /** The entries that are present, in order: rows that fail a schema are skipped. */
  function Present<T>(s: seq<Option<T>>): seq<T> {
    if s == [] then []
    else if s[0].Some? then [s[0].value] + Present(s[1..])
    else Present(s[1..])
  }

  lemma {:induction false} PresentAppend<T>(s: seq<Option<T>>, x: Option<T>)
    ensures Present(s + [x]) == Present(s) + (if x.Some? then [x.value] else [])
  {
    if s == [] {
      assert s + [x] == [x];
      assert Present([x]) == (if x.Some? then [x.value] + Present([]) else Present([]));
    } else {
      PresentAppend(s[1..], x);
      assert (s + [x])[1..] == s[1..] + [x];
    }
  }

  /** The values are those of the entries that are present, one each and in their order. */
  lemma {:induction false} PresentPicks<T>(s: seq<Option<T>>) returns (at: seq<nat>)
    ensures Chosen(at, |s|) && |at| == |Present(s)|
    ensures forall j {:trigger at[j]} :: 0 <= j < |at| ==> s[at[j]] == Some(Present(s)[j])
    ensures forall i {:trigger s[i]} :: 0 <= i < |s| && s[i].Some? ==> i in at
  {
    at := [];
    if s != [] {
      var front, last := s[..|s| - 1], s[|s| - 1];
      assert s == front + [last];
      PresentAppend(front, last);
      var before := PresentPicks(front);
      ChooseNext(before, |front|);
      at := if last.None? then before else before + [|front|];
      forall i | 0 <= i < |s| && s[i].Some? ensures i in at {
        assert i < |front| ==> s[i] == front[i] && i in before;
        StaysChosen(before, |front|, i);
      }
      forall j | 0 <= j < |at| ensures s[at[j]] == Some(Present(s)[j]) {
        assert j < |before| ==> front[before[j]] == Some(Present(front)[j]);
      }
    }
  }
}
