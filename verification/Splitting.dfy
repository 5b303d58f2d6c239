/** Joining parts with a separator, and splitting at every occurrence of one element. */
module Splitting {
  import opened Options

  function Join<T>(sep: seq<T>, parts: seq<seq<T>>): seq<T> {
    if parts == [] then []
    else if |parts| == 1 then parts[0]
    else parts[0] + sep + Join(sep, parts[1..])
  }

  function Split<T(==)>(sep: T, s: seq<T>): (parts: seq<seq<T>>)
    ensures |parts| > 0
  {
    if s == [] then [[]]
    else
      var rest := Split(sep, s[1..]);
      if s[0] == sep then [[]] + rest else [[s[0]] + rest[0]] + rest[1..]
  }

  lemma {:induction false} SplitClean<T>(sep: T, s: seq<T>)
    requires sep !in s
    ensures Split(sep, s) == [s]
  {
    if s != [] {
      SplitClean(sep, s[1..]);
      assert s == [s[0]] + s[1..];
    }
  }

  lemma {:induction false} SplitFirst<T>(sep: T, part: seq<T>, rest: seq<T>)
    requires sep !in part
    ensures Split(sep, part + [sep] + rest) == [part] + Split(sep, rest)
  {
    var s := part + [sep] + rest;
    if part == [] {
      assert s == [sep] + rest && s[1..] == rest;
    } else {
      assert s[1..] == part[1..] + [sep] + rest;
      SplitFirst(sep, part[1..], rest);
      assert part == [part[0]] + part[1..];
    }
  }

  lemma {:induction false} SplitUndoesJoin<T>(sep: T, parts: seq<seq<T>>)
    requires parts != [] && forall i :: 0 <= i < |parts| ==> sep !in parts[i]
    ensures Split(sep, Join([sep], parts)) == parts
  {
    if |parts| == 1 {
      SplitClean(sep, parts[0]);
    } else {
      SplitUndoesJoin(sep, parts[1..]);
      SplitFirst(sep, parts[0], Join([sep], parts[1..]));
      assert parts == [parts[0]] + parts[1..];
    }
  }

  lemma {:induction false} JoinHasNo<T>(x: T, sep: T, parts: seq<seq<T>>)
    requires x != sep && forall i :: 0 <= i < |parts| ==> x !in parts[i]
    ensures x !in Join([sep], parts)
  {
    if |parts| > 1 {
      JoinHasNo(x, sep, parts[1..]);
    }
  }

  lemma {:induction false} SplitHasNoSeparator<T>(sep: T, s: seq<T>)
    ensures forall i :: 0 <= i < |Split(sep, s)| ==> sep !in Split(sep, s)[i]
  {
    if s != [] {
      SplitHasNoSeparator(sep, s[1..]);
    }
  }

  /** The parts of a split are made of nothing else than the elements that were split. */
  lemma {:induction false} SplitKeepsElements<T>(sep: T, s: seq<T>, x: T)
    requires x !in s
    ensures forall i :: 0 <= i < |Split(sep, s)| ==> x !in Split(sep, s)[i]
  {
    if s != [] {
      SplitKeepsElements(sep, s[1..], x);
    }
  }

  /** The first position from `i` on of an element with a property, or the length. */
  function FirstFrom<T>(p: T -> bool, s: seq<T>, i: nat): (n: nat)
    requires i <= |s|
    ensures i <= n <= |s|
    decreases |s| - i
  {
    if i == |s| || p(s[i]) then i else FirstFrom(p, s, i + 1)
  }

  lemma {:induction false} FirstFromSkips<T>(p: T -> bool, s: seq<T>, i: nat, n: nat)
    requires i <= n < |s| && p(s[n])
    requires forall j {:trigger p(s[j])} :: i <= j < n ==> !p(s[j])
    ensures FirstFrom(p, s, i) == n
    decreases n - i
  {
    if i < n {
      assert !p(s[i]);
      FirstFromSkips(p, s, i + 1, n);
    }
  }

  lemma FirstAfterBody<T>(p: T -> bool, first: T, body: seq<T>, last: T, rest: seq<T>)
    requires p(last) && forall j {:trigger body[j]} :: 0 <= j < |body| ==> !p(body[j])
    ensures FirstFrom(p, [first] + body + [last] + rest, 1) == |body| + 1
  {
    var s := [first] + body + [last] + rest;
    assert s[|body| + 1] == last;
    forall j | 1 <= j < |body| + 1 ensures !p(s[j]) {
      assert s[j] == body[j - 1];
    }
    FirstFromSkips(p, s, 1, |body| + 1);
  }

  lemma JoinCons<T>(sep: T, first: seq<T>, rest: seq<seq<T>>)
    requires rest != []
    ensures Join([sep], [first] + rest) == first + [sep] + Join([sep], rest)
  {
    assert ([first] + rest)[1..] == rest;
  }

  lemma {:induction false} JoinUndoesSplit<T>(sep: T, s: seq<T>)
    ensures Join([sep], Split(sep, s)) == s
  {
    if s != [] {
      var rest := Split(sep, s[1..]);
      JoinUndoesSplit(sep, s[1..]);
      assert s == [s[0]] + s[1..];
      if s[0] == sep {
        JoinCons(sep, [], rest);
      } else if |rest| > 1 {
        assert rest == [rest[0]] + rest[1..];
        JoinCons(sep, rest[0], rest[1..]);
        JoinCons(sep, [s[0]] + rest[0], rest[1..]);
      }
    }
  }

  lemma {:induction false} JoinAppend<T>(sep: T, a: seq<seq<T>>, b: seq<seq<T>>)
    requires a != [] && b != []
    ensures Join([sep], a + b) == Join([sep], a) + [sep] + Join([sep], b)
  {
    if |a| == 1 {
      assert a == [a[0]];
      JoinCons(sep, a[0], b);
    } else {
      JoinAppend(sep, a[1..], b);
      assert a + b == [a[0]] + (a[1..] + b) && a == [a[0]] + a[1..];
      JoinCons(sep, a[0], a[1..] + b);
      JoinCons(sep, a[0], a[1..]);
    }
  }

  /** What lies between a first element with the property and the next such element. */
  function Between<T>(p: T -> bool, s: seq<T>): Option<seq<T>>
    requires s != []
  {
    var close := FirstFrom(p, s, 1);
    if !p(s[0]) || close == |s| then None else Some(s[1..close])
  }

  /** Splitting at a separator somewhere in the middle splits both sides. */
  lemma SplitAppend<T>(sep: T, a: seq<T>, b: seq<T>)
    ensures Split(sep, a + [sep] + b) == Split(sep, a) + Split(sep, b)
  {
    JoinUndoesSplit(sep, a);
    JoinUndoesSplit(sep, b);
    JoinAppend(sep, Split(sep, a), Split(sep, b));
    SplitHasNoSeparator(sep, a);
    SplitHasNoSeparator(sep, b);
    SplitUndoesJoin(sep, Split(sep, a) + Split(sep, b));
  }

  lemma {:induction false} FirstFromHits<T>(p: T -> bool, s: seq<T>, i: nat)
    requires i <= |s|
    ensures FirstFrom(p, s, i) < |s| ==> p(s[FirstFrom(p, s, i)])
    decreases |s| - i
  {
    if i < |s| && !p(s[i]) {
      FirstFromHits(p, s, i + 1);
    }
  }

  lemma {:induction false} FirstFromMisses<T>(p: T -> bool, s: seq<T>, i: nat)
    requires i <= |s|
    ensures forall j {:trigger s[j]} :: i <= j < FirstFrom(p, s, i) ==> !p(s[j])
    decreases |s| - i
  {
    if i < |s| && !p(s[i]) {
      FirstFromMisses(p, s, i + 1);
    }
  }
}
