/** Blank lines and comments make no difference to what front matter reads as, wherever they
    stand; and the lines for which there is no reading at all. */
module RubricComments {
  import opened Options
  import opened RubricGrammar

  /** The lines with one more, at position `p`. */
  function With<L>(lines: seq<L>, p: nat, extra: L): seq<L>
    requires p <= |lines|
  {
    (lines[..p] + [extra]) + lines[p..]
  }

  /** Where line `i` has gone. */
  function Up(p: nat, i: nat): nat {
    if i < p then i else i + 1
  }

  function UpNext<T>(p: nat, r: Result<(T, nat)>): Result<(T, nat)> {
    match r
    case Error => Error
    case Ok((value, next)) => Ok((value, Up(p, next)))
  }

  /** `more` is `lines` with an ignored line at position `p`. */
  ghost predicate Inserted<L, F, S>(cut: Cutter<L, F, S>, lines: seq<L>, p: nat, more: seq<L>) {
    && p <= |lines| && |more| == |lines| + 1 && cut.ignored(more[p])
    && forall i: nat {:trigger Up(p, i)} :: i < |lines| ==> more[Up(p, i)] == lines[i]
  }

  lemma {:induction false} ContinuationSkips<L, F, S>(cut: Cutter<L, F, S>, lines: seq<L>, p: nat, more: seq<L>, i: nat,
      indent: nat, item: Item<F, S>)
    requires Inserted(cut, lines, p, more) && i <= |lines|
    ensures ParseContinuation(cut, more, Up(p, i), indent, item) == UpNext(p,
            ParseContinuation(cut, lines, i, indent, item))
    ensures ParseContinuation(cut, more, p, indent, item) == ParseContinuation(cut, more, p + 1, indent, item)
    decreases |lines| - i
  {
    if i < |lines| {
      var entry := cut.entry(lines[i]);
      var after := if !cut.ignored(lines[i]) && entry.Some? then item[entry.value.0 := entry.value.1] else item;
      ContinuationSkips(cut, lines, p, more, i + 1, indent, after);
    }
  }

  /** From just below line `i`, whether or not the inserted line comes first. */
  lemma ContinuationBelow<L, F, S>(cut: Cutter<L, F, S>, lines: seq<L>, p: nat, more: seq<L>, i: nat, indent: nat,
      item: Item<F, S>)
    requires Inserted(cut, lines, p, more) && i < |lines|
    ensures ParseContinuation(cut, more, Up(p, i) + 1, indent, item) == UpNext(p,
            ParseContinuation(cut, lines, i + 1, indent, item))
  {
    ContinuationSkips(cut, lines, p, more, i + 1, indent, item);
  }

  lemma {:induction false} ItemsSkip<L, F, S>(cut: Cutter<L, F, S>, lines: seq<L>, p: nat, more: seq<L>, i: nat,
      listIndent: Option<nat>, items: seq<Item<F, S>>)
    requires Inserted(cut, lines, p, more) && i <= |lines|
    ensures ParseItems(cut, more, Up(p, i), listIndent, items) == UpNext(p,
            ParseItems(cut, lines, i, listIndent, items))
    ensures ParseItems(cut, more, p, listIndent, items) == ParseItems(cut, more, p + 1, listIndent, items)
    decreases |lines| - i
  {
    if i < |lines| {
      assert more[Up(p, i)] == lines[i];
      if cut.ignored(lines[i]) {
        ItemsSkip(cut, lines, p, more, i + 1, listIndent, items);
      } else if cut.first(lines[i]).Some? {
        ItemSkips(cut, lines, p, more, i, listIndent, items);
      }
    }
  }

  lemma {:induction false} ItemSkips<L, F, S>(cut: Cutter<L, F, S>, lines: seq<L>, p: nat, more: seq<L>, i: nat,
      listIndent: Option<nat>, items: seq<Item<F, S>>)
    requires Inserted(cut, lines, p, more) && i < |lines| && !cut.ignored(lines[i]) && cut.first(lines[i]).Some?
    ensures ParseItems(cut, more, Up(p, i), listIndent, items) == UpNext(p,
            ParseItems(cut, lines, i, listIndent, items))
    decreases |lines| - i, 0
  {
    var indent, first := cut.indent(lines[i]), cut.first(lines[i]).value;
    assert more[Up(p, i)] == lines[i];
    ContinuationBelow(cut, lines, p, more, i, indent, first);
    var r := ParseContinuation(cut, lines, i + 1, indent, first);
    if r.Ok? {
      ItemsSkip(cut, lines, p, more, r.value.1, Some(indent), items + [r.value.0]);
    }
  }

  lemma {:induction false} NextSkips<L, F, S>(cut: Cutter<L, F, S>, lines: seq<L>, p: nat, more: seq<L>, i: nat)
    requires Inserted(cut, lines, p, more) && i <= |lines|
    ensures NextIsItem(cut, more, Up(p, i)) == NextIsItem(cut, lines, i)
    ensures NextIsItem(cut, more, p) == NextIsItem(cut, more, p + 1)
    decreases |lines| - i
  {
    if i < |lines| {
      assert more[Up(p, i)] == lines[i];
      NextSkips(cut, lines, p, more, i + 1);
    }
  }

  lemma Below<L, F, S>(cut: Cutter<L, F, S>, lines: seq<L>, p: nat, more: seq<L>, i: nat)
    requires Inserted(cut, lines, p, more) && i < |lines|
    ensures NextIsItem(cut, more, Up(p, i) + 1) == NextIsItem(cut, lines, i + 1)
    ensures ParseItems(cut, more, Up(p, i) + 1, None, []) == UpNext(p, ParseItems(cut, lines, i + 1, None, []))
  {
    NextSkips(cut, lines, p, more, i + 1);
    ItemsSkip(cut, lines, p, more, i + 1, None, []);
  }

  lemma {:induction false} TopSkips<L, F, S>(cut: Cutter<L, F, S>, lines: seq<L>, p: nat, more: seq<L>, i: nat,
      out: map<F, Value<F, S>>)
    requires Inserted(cut, lines, p, more) && i <= |lines|
    ensures ParseTop(cut, more, Up(p, i), out) == ParseTop(cut, lines, i, out)
    ensures ParseTop(cut, more, p, out) == ParseTop(cut, more, p + 1, out)
    decreases |lines| - i, 1
  {
    if i < |lines| {
      assert more[Up(p, i)] == lines[i];
      if cut.ignored(lines[i]) {
        TopSkips(cut, lines, p, more, i + 1, out);
      } else if cut.entry(lines[i]).Some? {
        TopEntrySkips(cut, lines, p, more, i, out);
      }
    }
  }

  lemma {:induction false} TopBelow<L, F, S>(cut: Cutter<L, F, S>, lines: seq<L>, p: nat, more: seq<L>, i: nat,
      out: map<F, Value<F, S>>)
    requires Inserted(cut, lines, p, more) && i < |lines|
    ensures ParseTop(cut, more, Up(p, i) + 1, out) == ParseTop(cut, lines, i + 1, out)
    decreases |lines| - i, 0, 0
  {
    TopSkips(cut, lines, p, more, i + 1, out);
  }

  lemma {:induction false} TopEntrySkips<L, F, S>(cut: Cutter<L, F, S>, lines: seq<L>, p: nat, more: seq<L>, i: nat,
      out: map<F, Value<F, S>>)
    requires Inserted(cut, lines, p, more) && i < |lines| && !cut.ignored(lines[i]) && cut.entry(lines[i]).Some?
    ensures ParseTop(cut, more, Up(p, i), out) == ParseTop(cut, lines, i, out)
    decreases |lines| - i, 0, 1
  {
    var (key, value) := cut.entry(lines[i]).value;
    assert more[Up(p, i)] == lines[i];
    Below(cut, lines, p, more, i);
    TopBelow(cut, lines, p, more, i, out[key := Plain(value)]);
    var list := ParseItems(cut, lines, i + 1, None, []);
    if list.Ok? {
      TopSkips(cut, lines, p, more, list.value.1, out[key := Items(list.value.0)]);
    }
  }

  /** One more blank line or comment, anywhere, changes nothing. */
  lemma CommentsDoNotMatter<L, F, S>(cut: Cutter<L, F, S>, lines: seq<L>, p: nat, extra: L)
    requires p <= |lines| && cut.ignored(extra)
    ensures ParseTop(cut, With(lines, p, extra), 0, map[]) == ParseTop(cut, lines, 0, map[])
  {
    var more := With(lines, p, extra);
    assert Inserted(cut, lines, p, more);
    TopSkips(cut, lines, p, more, 0, map[]);
  }

  /** A first line that is neither blank nor a comment has to have a colon and no indentation. */
  lemma FirstLineHasToBeAnEntry<L, F, S>(cut: Cutter<L, F, S>, line: L, rest: seq<L>)
    requires !cut.ignored(line) && (cut.entry(line).None? || cut.indent(line) != 0)
    ensures ParseTop(cut, [line] + rest, 0, map[]) == Error
  {
  }

  /** A key with nothing after it and no list below it stands for what it reads as. */
  lemma BareKeyIsPlain<L, F, S>(cut: Cutter<L, F, S>, line: L, key: F, value: S)
    requires !cut.ignored(line) && cut.entry(line) == Some((key, value)) && cut.indent(line) == 0
    ensures ParseTop(cut, [line], 0, map[]) == Ok(map[key := Plain(value)])
  {
    assert !NextIsItem(cut, [line], 1);
    assert ParseTop(cut, [line], 1, map[key := Plain(value)]) == Ok(map[key := Plain(value)]);
  }
}
