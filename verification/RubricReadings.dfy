/** What the grammar reads, line by line: where items, lists and entries begin and end, which
    lines stop the reading, and which line a value comes from. */
module RubricReadings {
  import opened Options
  import opened RubricGrammar

  /** Nothing but blank lines and comments. */
  ghost predicate Quiet<L, F(!new), S>(cut: Cutter<L, F, S>, lines: seq<L>, i: nat, n: nat) {
    i <= n <= |lines| && forall m {:trigger lines[m]} :: i <= m < n ==> cut.ignored(lines[m])
  }

  // ---- The entries of an item ---------------------------------------------------------------

  predicate EndsItem<L, F(!new), S>(cut: Cutter<L, F, S>, line: L, indent: nat) {
    !cut.ignored(line) && (cut.indent(line) <= indent || cut.startsItem(line))
  }

  /** Every line belongs to the item: blank, a comment, or a deeper line with an entry. */
  ghost predicate Inside<L, F(!new), S>(cut: Cutter<L, F, S>, lines: seq<L>, i: nat, n: nat, indent: nat) {
    && i <= n <= |lines|
    && forall m {:trigger lines[m]} :: i <= m < n ==>
         cut.ignored(lines[m])
             || (cut.indent(lines[m]) > indent && !cut.startsItem(lines[m]) && cut.entry(lines[m]).Some?)
  }

  ghost predicate Sets<L, F(!new), S>(cut: Cutter<L, F, S>, line: L, f: F) {
    !cut.ignored(line) && cut.entry(line).Some? && cut.entry(line).value.0 == f
  }

  ghost predicate SetsLast<L, F(!new), S>(cut: Cutter<L, F, S>, lines: seq<L>, m: nat, n: nat, f: F) {
    m < n <= |lines| && Sets(cut, lines[m], f) && forall k {:trigger lines[k]} :: m < k < n ==> !Sets(cut, lines[k], f)
  }

  /** A field has the value of the last line that sets it, or the one that it had before. */
  ghost predicate LastWins<L, F(!new), S>(cut: Cutter<L, F, S>, lines: seq<L>, i: nat, n: nat, before: Item<F, S>,
      after: Item<F, S>)
    requires n <= |lines|
  {
    && (forall m: nat, f {:trigger SetsLast(cut, lines, m, n, f)} :: i <= m && SetsLast(cut, lines, m, n, f) ==>
          f in after && after[f] == cut.entry(lines[m]).value.1)
    && (forall f {:trigger f in after} {:trigger f in before} ::
          (forall m {:trigger lines[m]} :: i <= m < n ==> !Sets(cut, lines[m], f)) ==>
          (f in after <==> f in before) && (f in before ==> after[f] == before[f]))
  }

  /** What an item reads as, from line `i` on. */
  ghost predicate ItemReads<L, F(!new), S>(cut: Cutter<L, F, S>, lines: seq<L>, i: nat, indent: nat, item: Item<F, S>,
      r: Result<(Item<F, S>, nat)>)
  {
    match r
    case Ok((got, next)) =>
      && Inside(cut, lines, i, next, indent) && (next == |lines| || EndsItem(cut, lines[next], indent))
      && LastWins(cut, lines, i, next, item, got)
    case Error => exists n: nat :: BrokenEntry(cut, lines, i, n, indent)
  }

  ghost predicate BrokenEntry<L, F(!new), S>(cut: Cutter<L, F, S>, lines: seq<L>, i: nat, n: nat, indent: nat) {
    && n < |lines| && Inside(cut, lines, i, n, indent) && !cut.ignored(lines[n])
    && !EndsItem(cut, lines[n], indent) && cut.entry(lines[n]).None?
  }

  /** One more line of the item in front, with its entry or without one. */
  lemma ItemLonger<L, F(!new), S>(cut: Cutter<L, F, S>, lines: seq<L>, i: nat, indent: nat, item: Item<F, S>,
      r: Result<(Item<F, S>, nat)>)
    requires i < |lines| && (cut.ignored(lines[i]) || (!EndsItem(cut, lines[i], indent) && cut.entry(lines[i]).Some?))
    requires var entry := cut.entry(lines[i]);
             ItemReads(cut, lines, i + 1, indent,
                       if cut.ignored(lines[i]) then item else item[entry.value.0 := entry.value.1], r)
    ensures ItemReads(cut, lines, i, indent, item, r)
  {
    if r.Ok? {
      var (got, next) := r.value;
      var entry := cut.entry(lines[i]);
      var after := if cut.ignored(lines[i]) then item else item[entry.value.0 := entry.value.1];
      WinsLonger(cut, lines, i, next, item, after, got);
    } else {
      var n: nat :| BrokenEntry(cut, lines, i + 1, n, indent);
      assert BrokenEntry(cut, lines, i, n, indent);
    }
  }

  lemma WinsLonger<L, F(!new), S>(cut: Cutter<L, F, S>, lines: seq<L>, i: nat, n: nat, before: Item<F, S>,
      after: Item<F, S>, got: Item<F, S>)
    requires i < n <= |lines| && LastWins(cut, lines, i + 1, n, after, got)
    requires cut.ignored(lines[i]) || cut.entry(lines[i]).Some?
    requires var entry := cut.entry(lines[i]);
             after == if cut.ignored(lines[i]) then before else before[entry.value.0 := entry.value.1]
    ensures LastWins(cut, lines, i, n, before, got)
  {
  }

  /** An item goes on to the first line that is indented no deeper or starts an item, and takes
      all entries up to there; a deeper line without an entry is an error. */
  lemma {:induction false} ItemMeans<L, F(!new), S>(cut: Cutter<L, F, S>, lines: seq<L>, i: nat, indent: nat,
      item: Item<F, S>)
    requires i <= |lines|
    ensures ItemReads(cut, lines, i, indent, item, ParseContinuation(cut, lines, i, indent, item))
    decreases |lines| - i
  {
    if i < |lines| {
      var entry := cut.entry(lines[i]);
      if cut.ignored(lines[i]) {
        ItemMeans(cut, lines, i + 1, indent, item);
        ItemLonger(cut, lines, i, indent, item, ParseContinuation(cut, lines, i, indent, item));
      } else if EndsItem(cut, lines[i], indent) {
      } else if entry.Some? {
        ItemMeans(cut, lines, i + 1, indent, item[entry.value.0 := entry.value.1]);
        ItemLonger(cut, lines, i, indent, item, ParseContinuation(cut, lines, i, indent, item));
      } else {
        assert BrokenEntry(cut, lines, i, i, indent);
      }
    }
  }

  // ---- The items of a list ------------------------------------------------------------------

  /** The item whose dash stands in line `at`, after quiet lines only. */
  ghost predicate ItemAt<L, F(!new), S>(cut: Cutter<L, F, S>, lines: seq<L>, i: nat, at: nat, item: Item<F, S>,
      next: nat) {
    && Quiet(cut, lines, i, at) && at < |lines| && !cut.ignored(lines[at]) && cut.indent(lines[at]) > 0
    && cut.first(lines[at]).Some?
    && ParseContinuation(cut, lines, at + 1, cut.indent(lines[at]), cut.first(lines[at]).value) == Ok((item, next))
  }

  /** The items, one after another and all at one indentation. */
  ghost predicate ListAt<L, F(!new), S>(cut: Cutter<L, F, S>, lines: seq<L>, from: nat, indent: Option<nat>,
      at: seq<nat>, ends: seq<nat>, items: seq<Item<F, S>>)
  {
    && |at| == |items| && |ends| == |at| + 1 && ends[0] == from && (at == [] <==> indent.None?)
    && forall k {:trigger at[k]} :: 0 <= k < |at| ==>
         ItemAt(cut, lines, ends[k], at[k], items[k], ends[k + 1]) && indent == Some(cut.indent(lines[at[k]]))
  }

  predicate EndsList<L, F(!new), S>(cut: Cutter<L, F, S>, line: L, indent: Option<nat>) {
    && !cut.ignored(line)
    && (cut.indent(line) == 0 || cut.first(line).None? || (indent.Some? && cut.indent(line) != indent.value))
  }

  ghost predicate BrokenItem<L, F(!new), S>(cut: Cutter<L, F, S>, lines: seq<L>, i: nat, indent: Option<nat>, n: nat) {
    && Quiet(cut, lines, i, n) && n < |lines| && !cut.ignored(lines[n]) && !EndsList(cut, lines[n], indent)
    && ParseContinuation(cut, lines, n + 1, cut.indent(lines[n]), cut.first(lines[n]).value) == Error
  }

  ghost predicate ListReads<L, F(!new), S>(cut: Cutter<L, F, S>, lines: seq<L>, from: nat,
      r: Result<(seq<Item<F, S>>, nat)>,
      at: seq<nat>, ends: seq<nat>, items: seq<Item<F, S>>, indent: Option<nat>)
  {
    && ListAt(cut, lines, from, indent, at, ends, items)
    && match r
       case Ok((got, next)) =>
         && got == items && Quiet(cut, lines, ends[|at|], next)
         && (next == |lines| || EndsList(cut, lines[next], indent))
       case Error => exists n: nat :: BrokenItem(cut, lines, ends[|at|], indent, n)
  }

  lemma {:induction false} ListFrom<L, F(!new), S>(cut: Cutter<L, F, S>, lines: seq<L>, from: nat, i: nat,
      indent0: Option<nat>,
      at0: seq<nat>, ends0: seq<nat>, items0: seq<Item<F, S>>)
    returns (at: seq<nat>, ends: seq<nat>, items: seq<Item<F, S>>, indent: Option<nat>)
    requires ListAt(cut, lines, from, indent0, at0, ends0, items0) && Quiet(cut, lines, ends0[|at0|], i)
    ensures ListReads(cut, lines, from, ParseItems(cut, lines, i, indent0, items0), at, ends, items, indent)
    decreases |lines| - i
  {
    at, ends, items, indent := at0, ends0, items0, indent0;
    if i < |lines| {
      var line := lines[i];
      if cut.ignored(line) {
        at, ends, items, indent := ListFrom(cut, lines, from, i + 1, indent0, at0, ends0, items0);
      } else if !EndsList(cut, line, indent0) {
        var deep, first := cut.indent(line), cut.first(line).value;
        var r := ParseContinuation(cut, lines, i + 1, deep, first);
        if r.Ok? {
          var (item, next) := r.value;
          assert ItemAt(cut, lines, ends0[|at0|], i, item, next);
          at, ends, items, indent :=
            ListFrom(cut, lines, from, next, Some(deep), at0 + [i], ends0 + [next], items0 + [item]);
        } else {
          assert BrokenItem(cut, lines, ends0[|at0|], indent0, i);
        }
      }
    }
  }

  /** A list has the items whose dashes stand at the indentation of the first, which is not zero;
      it ends at the first line that is no such dash; and it fails where one of its items does. */
  lemma ListMeans<L, F(!new), S>(cut: Cutter<L, F, S>, lines: seq<L>, from: nat)
    returns (at: seq<nat>, ends: seq<nat>, items: seq<Item<F, S>>, indent: Option<nat>)
    requires from <= |lines|
    ensures ListReads(cut, lines, from, ParseItems(cut, lines, from, None, []), at, ends, items, indent)
  {
    at, ends, items, indent := ListFrom(cut, lines, from, from, None, [], [from], []);
  }

  /** Looking ahead finds an item exactly when the next line that is not quiet starts one. */
  lemma {:induction false} AheadMeans<L, F(!new), S>(cut: Cutter<L, F, S>, lines: seq<L>, i: nat)
    requires i <= |lines|
    ensures NextIsItem(cut, lines, i) <==>
            exists n: nat :: Quiet(cut, lines, i, n) && n < |lines| && !cut.ignored(lines[n])
                && cut.startsItem(lines[n])
    decreases |lines| - i
  {
    if i < |lines| {
      if cut.ignored(lines[i]) {
        AheadMeans(cut, lines, i + 1);
        if n: nat :| Quiet(cut, lines, i, n) && n < |lines| && !cut.ignored(lines[n]) && cut.startsItem(lines[n]) {
          assert Quiet(cut, lines, i + 1, n);
        }
        if n: nat :| Quiet(cut, lines, i + 1, n) && n < |lines| && !cut.ignored(lines[n]) && cut.startsItem(lines[n]) {
          assert Quiet(cut, lines, i, n);
        }
      } else {
        assert Quiet(cut, lines, i, i);
      }
    }
  }

  // ---- The entries of the document -----------------------------------------------------------

  predicate OpensList<L, F(!new), S>(cut: Cutter<L, F, S>, lines: seq<L>, at: nat)
    requires at < |lines|
  {
    cut.opensBlock(lines[at]) && NextIsItem(cut, lines, at + 1)
  }

  /** The entry in line `at`, after quiet lines only, with its own value or the list below it. */
  ghost predicate BlockAt<L, F(!new), S>(cut: Cutter<L, F, S>, lines: seq<L>, i: nat, at: nat, value: Value<F, S>,
      next: nat) {
    && Quiet(cut, lines, i, at) && at < |lines| && !cut.ignored(lines[at]) && cut.indent(lines[at]) == 0
    && cut.entry(lines[at]).Some?
    && match value
       case Items(items) => OpensList(cut, lines, at) && ParseItems(cut, lines, at + 1, None, []) == Ok((items, next))
       case Plain(scalar) => !OpensList(cut, lines, at) && scalar == cut.entry(lines[at]).value.1 && next == at + 1
  }

  ghost predicate KeyIs<L, F(!new), S>(cut: Cutter<L, F, S>, lines: seq<L>, at: nat, f: F) {
    at < |lines| && cut.entry(lines[at]).Some? && cut.entry(lines[at]).value.0 == f
  }

  /** The entries, one after another. */
  ghost predicate BlocksAt<L, F(!new), S>(cut: Cutter<L, F, S>, lines: seq<L>, at: seq<nat>, ends: seq<nat>,
      values: seq<Value<F, S>>) {
    && |at| == |values| && |ends| == |at| + 1 && ends[0] == 0
    && forall k {:trigger at[k]} :: 0 <= k < |at| ==> BlockAt(cut, lines, ends[k], at[k], values[k], ends[k + 1])
  }

  ghost predicate LastOf<L, F(!new), S>(cut: Cutter<L, F, S>, lines: seq<L>, at: seq<nat>, k: int, f: F) {
    && 0 <= k < |at| && KeyIs(cut, lines, at[k], f)
    && forall j {:trigger at[j]} :: k < j < |at| ==> !KeyIs(cut, lines, at[j], f)
  }

  /** Each key stands for the last of its entries, and for nothing without one. */
  ghost predicate LastBlockWins<L, F(!new), S>(cut: Cutter<L, F, S>, lines: seq<L>, at: seq<nat>,
      values: seq<Value<F, S>>,
      out: map<F, Value<F, S>>)
    requires |at| == |values|
  {
    && (forall f {:trigger f in out} :: f in out <==> exists k :: 0 <= k < |at| && KeyIs(cut, lines, at[k], f))
    && forall k, f {:trigger LastOf(cut, lines, at, k, f)} :: LastOf(cut, lines, at, k, f) && f in out ==>
        out[f] == values[k]
  }

  ghost predicate BrokenBlock<L, F(!new), S>(cut: Cutter<L, F, S>, lines: seq<L>, i: nat, n: nat) {
    && Quiet(cut, lines, i, n) && n < |lines| && !cut.ignored(lines[n])
    && (cut.entry(lines[n]).None? || cut.indent(lines[n]) != 0
        || (OpensList(cut, lines, n) && ParseItems(cut, lines, n + 1, None, []) == Error))
  }

  ghost predicate DocumentIs<L, F(!new), S>(cut: Cutter<L, F, S>, lines: seq<L>, r: Result<map<F, Value<F, S>>>,
      at: seq<nat>, ends: seq<nat>, values: seq<Value<F, S>>)
  {
    && BlocksAt(cut, lines, at, ends, values)
    && match r
       case Ok(out) => Quiet(cut, lines, ends[|at|], |lines|) && LastBlockWins(cut, lines, at, values, out)
       case Error => exists n: nat :: BrokenBlock(cut, lines, ends[|at|], n)
  }

  lemma NextBlockWins<L, F(!new), S>(cut: Cutter<L, F, S>, lines: seq<L>, at: seq<nat>, values: seq<Value<F, S>>,
      out: map<F, Value<F, S>>, i: nat, value: Value<F, S>)
    requires |at| == |values| && LastBlockWins(cut, lines, at, values, out)
    requires i < |lines| && cut.entry(lines[i]).Some?
    ensures LastBlockWins(cut, lines, at + [i], values + [value], out[cut.entry(lines[i]).value.0 := value])
  {
    var key := cut.entry(lines[i]).value.0;
    var at', out' := at + [i], out[key := value];
    forall f {:trigger f in out'} ensures f in out' <==> exists k :: 0 <= k < |at'| && KeyIs(cut, lines, at'[k], f) {
      if f == key {
        assert KeyIs(cut, lines, at'[|at|], f);
      } else if f in out {
        var k :| 0 <= k < |at| && KeyIs(cut, lines, at[k], f);
        assert KeyIs(cut, lines, at'[k], f);
      }
    }
    forall k, f | LastOf(cut, lines, at', k, f) && f in out' ensures out'[f] == (values + [value])[k] {
      if k < |at| {
        assert !KeyIs(cut, lines, at'[|at|], f) && KeyIs(cut, lines, at[k], f);
        assert forall j {:trigger at[j]} :: k < j < |at| ==> at[j] == at'[j];
        assert LastOf(cut, lines, at, k, f);
      }
    }
  }

  lemma {:induction false} BlocksFrom<L, F(!new), S>(cut: Cutter<L, F, S>, lines: seq<L>, i: nat,
      out: map<F, Value<F, S>>,
      at0: seq<nat>, ends0: seq<nat>, values0: seq<Value<F, S>>)
    returns (at: seq<nat>, ends: seq<nat>, values: seq<Value<F, S>>)
    requires BlocksAt(cut, lines, at0, ends0, values0) && Quiet(cut, lines, ends0[|at0|], i)
    requires LastBlockWins(cut, lines, at0, values0, out)
    ensures DocumentIs(cut, lines, ParseTop(cut, lines, i, out), at, ends, values)
    decreases |lines| - i
  {
    at, ends, values := at0, ends0, values0;
    if i < |lines| {
      var line := lines[i];
      if cut.ignored(line) {
        at, ends, values := BlocksFrom(cut, lines, i + 1, out, at0, ends0, values0);
      } else if BrokenBlock(cut, lines, ends0[|at0|], i) {
      } else {
        at, ends, values := OneBlock(cut, lines, i, out, at0, ends0, values0);
      }
    }
  }

  lemma {:induction false} OneBlock<L, F(!new), S>(cut: Cutter<L, F, S>, lines: seq<L>, i: nat,
      out: map<F, Value<F, S>>,
      at0: seq<nat>, ends0: seq<nat>, values0: seq<Value<F, S>>)
    returns (at: seq<nat>, ends: seq<nat>, values: seq<Value<F, S>>)
    requires BlocksAt(cut, lines, at0, ends0, values0) && Quiet(cut, lines, ends0[|at0|], i)
    requires LastBlockWins(cut, lines, at0, values0, out)
    requires i < |lines| && !cut.ignored(lines[i]) && !BrokenBlock(cut, lines, ends0[|at0|], i)
    ensures DocumentIs(cut, lines, ParseTop(cut, lines, i, out), at, ends, values)
    decreases |lines| - i, 0
  {
    var (key, scalar) := cut.entry(lines[i]).value;
    var value, next := Plain(scalar), i + 1;
    if OpensList(cut, lines, i) {
      var list := ParseItems(cut, lines, i + 1, None, []).value;
      value, next := Items(list.0), list.1;
    }
    assert BlockAt(cut, lines, ends0[|at0|], i, value, next);
    NextBlockWins(cut, lines, at0, values0, out, i, value);
    at, ends, values := BlocksFrom(cut, lines, next, out[key := value], at0 + [i], ends0 + [next], values0 + [value]);
  }

  /** A document has one entry for each line that is neither quiet nor part of the list of an
      entry above it, all without indentation; the last entry of a key counts; and it is refused
      at the first line that breaks this. */
  lemma DocumentMeans<L, F(!new), S>(cut: Cutter<L, F, S>, lines: seq<L>)
    returns (at: seq<nat>, ends: seq<nat>, values: seq<Value<F, S>>)
    ensures DocumentIs(cut, lines, ParseTop(cut, lines, 0, map[]), at, ends, values)
  {
    at, ends, values := BlocksFrom(cut, lines, 0, map[], [], [0], []);
  }
}
