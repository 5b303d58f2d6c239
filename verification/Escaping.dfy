/** Escaping with a backslash, and undoing it by global replacements one after another. */
module Escaping {

  /** `replace(/pattern/g, with)` for a literal pattern. */
  function ReplaceAll<T(==)>(s: seq<T>, pattern: seq<T>, with: seq<T>): seq<T>
    requires pattern != []
  {
    if |s| < |pattern| then s
    else if s[..|pattern|] == pattern then with + ReplaceAll(s[|pattern|..], pattern, with)
    else [s[0]] + ReplaceAll(s[1..], pattern, with)
  }

  /** The replacement of one element, and of two. */
  function ReplaceOne<T(==)>(s: seq<T>, p: T, with: seq<T>): seq<T> {
    if s == [] then [] else (if s[0] == p then with else [s[0]]) + ReplaceOne(s[1..], p, with)
  }

  function ReplaceTwo<T(==)>(s: seq<T>, p: T, q: T, with: seq<T>): seq<T> {
    if s == [] then []
    else if s[0] == p && |s| > 1 && s[1] == q then with + ReplaceTwo(s[2..], p, q, with)
    else [s[0]] + ReplaceTwo(s[1..], p, q, with)
  }

  lemma {:induction false} ReplaceOneIsReplaceAll<T>(s: seq<T>, p: T, with: seq<T>)
    ensures ReplaceAll(s, [p], with) == ReplaceOne(s, p, with)
  {
    if s != [] {
      ReplaceOneIsReplaceAll(s[1..], p, with);
      assert s[..1] == [s[0]];
    }
  }

  lemma {:induction false} ReplaceTwoIsReplaceAll<T>(s: seq<T>, p: T, q: T, with: seq<T>)
    ensures ReplaceAll(s, [p, q], with) == ReplaceTwo(s, p, q, with)
  {
    if |s| == 1 {
      assert ReplaceTwo(s[1..], p, q, with) == [];
    } else if |s| > 1 {
      ReplaceTwoIsReplaceAll(s[1..], p, q, with);
      ReplaceTwoIsReplaceAll(s[2..], p, q, with);
      assert s[..2] == [s[0], s[1]];
    }
  }

  function Doubled<T(==)>(s: seq<T>, b: T): seq<T> {
    ReplaceOne(s, b, [b, b])
  }

  /** Every `b` and every `q` has a `b` put before it. */
  function Escaped<T(==)>(s: seq<T>, b: T, q: T): seq<T> {
    if s == [] then [] else (if s[0] == b then [b, b] else if s[0] == q then [b, q] else [s[0]]) + Escaped(s[1..], b, q)
  }

  lemma {:induction false} ReplaceOneAppend<T>(s: seq<T>, t: seq<T>, p: T, with: seq<T>)
    ensures ReplaceOne(s + t, p, with) == ReplaceOne(s, p, with) + ReplaceOne(t, p, with)
  {
    if s == [] {
      assert s + t == t;
    } else {
      ReplaceOneAppend(s[1..], t, p, with);
      assert (s + t)[1..] == s[1..] + t;
    }
  }

  lemma {:induction false} TwoPassesEscape<T>(s: seq<T>, b: T, q: T)
    requires b != q
    ensures ReplaceOne(Doubled(s, b), q, [b, q]) == Escaped(s, b, q)
  {
    if s != [] {
      TwoPassesEscape(s[1..], b, q);
      var first := if s[0] == b then [b, b] else [s[0]];
      ReplaceOneAppend(first, Doubled(s[1..], b), q, [b, q]);
      assert ReplaceOne([s[0]], q, [b, q]) == if s[0] == q then [b, q] else [s[0]];
      if s[0] == b {
        assert [b, b][1..] == [b] && ReplaceOne([b], q, [b, q]) == [b];
      }
    }
  }

  lemma StepOver<T>(c: T, rest: seq<T>, p: T, q: T, with: seq<T>)
    requires c != p || rest == [] || rest[0] != q
    ensures ReplaceTwo([c] + rest, p, q, with) == [c] + ReplaceTwo(rest, p, q, with)
  {
    assert ([c] + rest)[1..] == rest;
  }

  lemma StepInto<T>(rest: seq<T>, p: T, q: T, with: seq<T>)
    ensures ReplaceTwo([p] + ([q] + rest), p, q, with) == with + ReplaceTwo(rest, p, q, with)
  {
    assert ([p] + ([q] + rest))[2..] == rest;
  }

  lemma {:induction false} FirstPassUnquotes<T>(s: seq<T>, b: T, q: T)
    requires b != q
    ensures ReplaceTwo(Escaped(s, b, q), b, q, [q]) == Doubled(s, b)
    ensures Escaped(s, b, q) != [] ==> Escaped(s, b, q)[0] != q
  {
    if s != [] {
      var rest := Escaped(s[1..], b, q);
      FirstPassUnquotes(s[1..], b, q);
      if s[0] == b {
        assert [b, b] + rest == [b] + ([b] + rest);
        StepOver(b, [b] + rest, b, q, [q]);
        StepOver(b, rest, b, q, [q]);
      } else if s[0] == q {
        assert [b, q] + rest == [b] + ([q] + rest);
        StepInto(rest, b, q, [q]);
      } else {
        StepOver(s[0], rest, b, q, [q]);
      }
    }
  }

  /** Replacing `b a` takes one `b` too many from a doubled run before `a`; halving the
      rest then leaves the odd `b` alone. */
  lemma {:induction false} LastPassesHalve<T>(s: seq<T>, b: T, a: T)
    requires a != b
    ensures ReplaceTwo(ReplaceTwo(Doubled(s, b), b, a, [a]), b, b, [b]) == s
  {
    if s == [] {
    } else if s[0] != b {
      LastPassesHalve(s[1..], b, a);
      StepOver(s[0], Doubled(s[1..], b), b, a, [a]);
      StepOver(s[0], ReplaceTwo(Doubled(s[1..], b), b, a, [a]), b, b, [b]);
      assert s == [s[0]] + s[1..];
    } else if |s| > 1 && s[1] == a {
      LastPassesHalve(s[2..], b, a);
      HalveBefore(s, b, a);
    } else {
      LastPassesHalve(s[1..], b, a);
      HalvePair(s, b, a);
    }
  }

  lemma HalveBefore<T>(s: seq<T>, b: T, a: T)
    requires a != b && |s| > 1 && s[0] == b && s[1] == a
    requires ReplaceTwo(ReplaceTwo(Doubled(s[2..], b), b, a, [a]), b, b, [b]) == s[2..]
    ensures ReplaceTwo(ReplaceTwo(Doubled(s, b), b, a, [a]), b, b, [b]) == s
  {
    var rest := Doubled(s[2..], b);
    var after := ReplaceTwo(rest, b, a, [a]);
    assert s[1..][1..] == s[2..];
    assert Doubled(s[1..], b) == [a] + rest;
    assert Doubled(s, b) == [b, b] + ([a] + rest);
    assert [b, b] + ([a] + rest) == [b] + ([b] + ([a] + rest));
    StepOver(b, [b] + ([a] + rest), b, a, [a]);
    StepInto(rest, b, a, [a]);
    assert ReplaceTwo(Doubled(s, b), b, a, [a]) == [b] + ([a] + after);
    StepOver(b, [a] + after, b, b, [b]);
    StepOver(a, after, b, b, [b]);
    assert s == [b] + ([a] + s[2..]);
  }

  lemma HalvePair<T>(s: seq<T>, b: T, a: T)
    requires a != b && |s| > 0 && s[0] == b && (|s| > 1 ==> s[1] != a)
    requires ReplaceTwo(ReplaceTwo(Doubled(s[1..], b), b, a, [a]), b, b, [b]) == s[1..]
    ensures ReplaceTwo(ReplaceTwo(Doubled(s, b), b, a, [a]), b, b, [b]) == s
  {
    var rest := Doubled(s[1..], b);
    var after := ReplaceTwo(rest, b, a, [a]);
    assert Doubled(s, b) == [b] + ([b] + rest);
    StepOver(b, [b] + rest, b, a, [a]);
    StepOver(b, rest, b, a, [a]);
    StepInto(after, b, b, [b]);
    assert s == [b] + s[1..];
  }

  /** Two replacements escape `b` and `q`; the three that follow, one of them for a mark
      `a` that was never escaped, give the text back. */
  lemma ThreePassesUndoTwo<T>(s: seq<T>, b: T, q: T, a: T)
    requires b != q && a != b
    ensures var escaped := ReplaceAll(ReplaceAll(s, [b], [b, b]), [q], [b, q]);
            ReplaceAll(ReplaceAll(ReplaceAll(escaped, [b, q], [q]), [b, a], [a]), [b, b], [b]) == s
  {
    ReplaceOneIsReplaceAll(s, b, [b, b]);
    ReplaceOneIsReplaceAll(Doubled(s, b), q, [b, q]);
    TwoPassesEscape(s, b, q);
    var escaped := Escaped(s, b, q);
    ReplaceTwoIsReplaceAll(escaped, b, q, [q]);
    FirstPassUnquotes(s, b, q);
    ReplaceTwoIsReplaceAll(Doubled(s, b), b, a, [a]);
    ReplaceTwoIsReplaceAll(ReplaceTwo(Doubled(s, b), b, a, [a]), b, b, [b]);
    LastPassesHalve(s, b, a);
  }

  /** A replacement brings in no element that is not in the text or in what is put in. */
  lemma {:induction false} ReplaceKeepsOut<T>(s: seq<T>, pattern: seq<T>, with: seq<T>, x: T)
    requires pattern != [] && x !in s && x !in with
    ensures x !in ReplaceAll(s, pattern, with)
  {
    if |s| >= |pattern| {
      if s[..|pattern|] == pattern {
        ReplaceKeepsOut(s[|pattern|..], pattern, with, x);
      } else {
        ReplaceKeepsOut(s[1..], pattern, with, x);
      }
    }
  }
}
