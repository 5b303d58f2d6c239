/** The grammar of a rubric's front matter, over lines of which only a few things matter. */
module RubricGrammar {
  import opened Options

  datatype Result<T> = Ok(value: T) | Error

  type Item<F, S> = map<F, S>

  datatype Value<F, S> = Plain(scalar: S) | Items(items: seq<Item<F, S>>)

  /** How a line of type `L` is cut up: whether it is blank or a comment; its indentation;
      whether it has the dash of a list item; the first entry of the item that it starts;
      its key and value, if it has a colon; and whether nothing follows the colon. */
  datatype Cutter<!L, F, S> = Cutter(
    ignored: L -> bool,
    indent: L -> nat,
    startsItem: L -> bool,
    first: L -> Option<Item<F, S>>,
    entry: L -> Option<(F, S)>,
    opensBlock: L -> bool)

  /** The entries of a list item from line `i` on, and where they end. */
  function ParseContinuation<L, F, S>(cut: Cutter<L, F, S>, lines: seq<L>, i: nat, indent: nat,
      item: Item<F, S>): (r: Result<(Item<F, S>, nat)>)
    requires i <= |lines|
    ensures r.Ok? ==> i <= r.value.1 <= |lines|
    decreases |lines| - i
  {
    if i == |lines| then Ok((item, i))
    else if cut.ignored(lines[i]) then ParseContinuation(cut, lines, i + 1, indent, item)
    else if cut.indent(lines[i]) <= indent || cut.startsItem(lines[i]) then Ok((item, i))
    else match cut.entry(lines[i])
         case None => Error
         case Some((key, value)) => ParseContinuation(cut, lines, i + 1, indent, item[key := value])
  }

  /** The items of a list, all at the indentation of the first, and where they end. */
  function ParseItems<L, F, S>(cut: Cutter<L, F, S>, lines: seq<L>, i: nat, listIndent: Option<nat>,
      items: seq<Item<F, S>>):
    (r: Result<(seq<Item<F, S>>, nat)>)
    requires i <= |lines|
    ensures r.Ok? ==> i <= r.value.1 <= |lines|
    decreases |lines| - i
  {
    if i == |lines| then Ok((items, i))
    else if cut.ignored(lines[i]) then ParseItems(cut, lines, i + 1, listIndent, items)
    else
      var indent, first := cut.indent(lines[i]), cut.first(lines[i]);
      if indent == 0 || first.None? || (listIndent.Some? && listIndent.value != indent) then Ok((items, i))
      else match ParseContinuation(cut, lines, i + 1, indent, first.value)
           case Error => Error
           case Ok((item, next)) => ParseItems(cut, lines, next, Some(indent), items + [item])
  }

  predicate NextIsItem<L, F, S>(cut: Cutter<L, F, S>, lines: seq<L>, i: nat)
    requires i <= |lines|
    decreases |lines| - i
  {
    i < |lines| && if cut.ignored(lines[i]) then NextIsItem(cut, lines, i + 1) else cut.startsItem(lines[i])
  }

  function ParseTop<L, F, S>(cut: Cutter<L, F, S>, lines: seq<L>, i: nat,
      out: map<F, Value<F, S>>): Result<map<F, Value<F, S>>>
    requires i <= |lines|
    decreases |lines| - i
  {
    if i == |lines| then Ok(out)
    else if cut.ignored(lines[i]) then ParseTop(cut, lines, i + 1, out)
    else match cut.entry(lines[i])
         case None => Error
         case Some((key, value)) =>
           if cut.indent(lines[i]) != 0 then Error
           else if !(cut.opensBlock(lines[i])
               && NextIsItem(cut, lines, i + 1)) then ParseTop(cut, lines, i + 1, out[key := Plain(value)])
           else match ParseItems(cut, lines, i + 1, None, [])
                case Error => Error
                case Ok((items, next)) => ParseTop(cut, lines, next, out[key := Items(items)])
  }

  // ---- The loops of the source ---------------------------------------------------------

  method PeekIsItem<L, F, S>(cut: Cutter<L, F, S>, lines: seq<L>, from: nat) returns (isItem: bool)
    requires from <= |lines|
    ensures isItem == NextIsItem(cut, lines, from)
  {
    var j := from;
    while j < |lines|
      invariant from <= j <= |lines| && NextIsItem(cut, lines, from) == NextIsItem(cut, lines, j)
    {
      if !cut.ignored(lines[j]) { return cut.startsItem(lines[j]); }
      j := j + 1;
    }
    return false;
  }

  method ReadContinuation<L, F(==), S>(cut: Cutter<L, F, S>, lines: seq<L>, from: nat, indent: nat, first: Item<F, S>)
    returns (r: Result<(Item<F, S>, nat)>)
    requires from <= |lines|
    ensures r == ParseContinuation(cut, lines, from, indent, first)
  {
    var i, item := from, first;
    while i < |lines|
      invariant from <= i <= |lines|
      invariant ParseContinuation(cut, lines, from, indent, first) == ParseContinuation(cut, lines, i, indent, item)
    {
      var line := lines[i];
      if !cut.ignored(line) {
        if cut.indent(line) <= indent || cut.startsItem(line) { return Ok((item, i)); }
        var entry := cut.entry(line);
        if entry.None? { return Error; }
        item := item[entry.value.0 := entry.value.1];
      }
      i := i + 1;
    }
    return Ok((item, i));
  }

  method ParseListItems<L, F(==), S>(cut: Cutter<L, F, S>, lines: seq<L>, from: nat)
      returns (r: Result<(seq<Item<F, S>>, nat)>)
    requires from <= |lines|
    ensures r == ParseItems(cut, lines, from, None, [])
  {
    var i, items, listIndent := from, [], None;
    while i < |lines|
      invariant from <= i <= |lines|
      invariant ParseItems(cut, lines, from, None, []) == ParseItems(cut, lines, i, listIndent, items)
    {
      var line := lines[i];
      if cut.ignored(line) {
        i := i + 1;
        continue;
      }
      var indent, first := cut.indent(line), cut.first(line);
      if indent == 0 || first.None? || (listIndent.Some? && listIndent.value != indent) { return Ok((items, i)); }
      listIndent := Some(indent);
      var item := ReadContinuation(cut, lines, i + 1, indent, first.value);
      if item.Error? { return Error; }
      items, i := items + [item.value.0], item.value.1;
    }
    return Ok((items, i));
  }

  method ParseRubricYamlSubset<L, F(==), S>(cut: Cutter<L, F, S>, lines: seq<L>)
      returns (r: Result<map<F, Value<F, S>>>)
    ensures r == ParseTop(cut, lines, 0, map[])
  {
    var i, out := 0, map[];
    while i < |lines|
      invariant i <= |lines| && ParseTop(cut, lines, 0, map[]) == ParseTop(cut, lines, i, out)
    {
      var line := lines[i];
      if cut.ignored(line) {
        i := i + 1;
        continue;
      }
      var entry := cut.entry(line);
      if entry.None? || cut.indent(line) != 0 { return Error; }
      if cut.opensBlock(line) {
        var isItem := PeekIsItem(cut, lines, i + 1);
        if isItem {
          var list := ParseListItems(cut, lines, i + 1);
          if list.Error? { return Error; }
          out, i := out[entry.value.0 := Items(list.value.0)], list.value.1;
          continue;
        }
      }
      out := out[entry.value.0 := Plain(entry.value.1)];
      i := i + 1;
    }
    return Ok(out);
  }

  // ---- What a document of a known layout reads as ----------------------------------------

  /** A line reads as one entry at an indentation. */
  ghost predicate ReadsAsEntry<L, F, S>(cut: Cutter<L, F, S>, line: L, indent: nat, key: F, value: S) {
    && !cut.ignored(line) && cut.indent(line) == indent && !cut.startsItem(line)
    && cut.entry(line) == Some((key, value)) && !cut.opensBlock(line)
  }

  /** A line reads as the start of an item with one entry, at indentation two. */
  ghost predicate ReadsAsItem<L, F, S>(cut: Cutter<L, F, S>, line: L, key: F, value: S) {
    && !cut.ignored(line) && cut.indent(line) == 2 && cut.startsItem(line) && cut.first(line) == Some(map[key := value])
  }

  ghost predicate ReadsAsBlock<L, F, S>(cut: Cutter<L, F, S>, line: L, key: F) {
    && !cut.ignored(line) && cut.indent(line) == 0 && cut.opensBlock(line)
    && cut.entry(line).Some? && cut.entry(line).value.0 == key
  }

  /** An item as it is laid out: one entry on its first line, the others below. */
  datatype Block<F, S> = Block(key: F, value: S, entries: seq<(F, S)>)

  function WithAll<F, S>(item: map<F, S>, entries: seq<(F, S)>): map<F, S>
    decreases |entries|
  {
    if entries == [] then item else WithAll(item[entries[0].0 := entries[0].1], entries[1..])
  }

  function ItemOf<F, S>(block: Block<F, S>): Item<F, S> {
    WithAll(map[block.key := block.value], block.entries)
  }

  function ItemsOf<F, S>(blocks: seq<Block<F, S>>): seq<Item<F, S>> {
    if blocks == [] then [] else [ItemOf(blocks[0])] + ItemsOf(blocks[1..])
  }

  ghost predicate ReadsAsEntries<L, F, S>(cut: Cutter<L, F, S>, lines: seq<L>, i: nat, indent: nat,
      entries: seq<(F, S)>) {
    && i + |entries| <= |lines|
    && forall j {:trigger entries[j]} :: 0 <= j < |entries| ==>
        ReadsAsEntry(cut, lines[i + j], indent, entries[j].0, entries[j].1)
  }

  ghost predicate ReadsAsBlocks<L, F, S>(cut: Cutter<L, F, S>, lines: seq<L>, i: nat, blocks: seq<Block<F, S>>)
    decreases |blocks|
  {
    if blocks == [] then i == |lines|
    else
      && i < |lines| && ReadsAsItem(cut, lines[i], blocks[0].key, blocks[0].value)
      && ReadsAsEntries(cut, lines, i + 1, 4, blocks[0].entries)
      && ReadsAsBlocks(cut, lines, i + 1 + |blocks[0].entries|, blocks[1..])
  }

  /** Lines read as entries, one each. */
  ghost predicate Match<L, F, S>(cut: Cutter<L, F, S>, lines: seq<L>, indent: nat, entries: seq<(F, S)>) {
    && |lines| == |entries|
    && forall j {:trigger entries[j]} :: 0 <= j < |entries| ==>
        ReadsAsEntry(cut, lines[j], indent, entries[j].0, entries[j].1)
  }

  lemma MatchAppend<L, F, S>(cut: Cutter<L, F, S>, a: seq<L>, b: seq<L>, indent: nat, x: seq<(F, S)>, y: seq<(F, S)>)
    requires Match(cut, a, indent, x) && Match(cut, b, indent, y)
    ensures Match(cut, a + b, indent, x + y)
  {
    forall j | 0 <= j < |x + y| ensures ReadsAsEntry(cut, (a + b)[j], indent, (x + y)[j].0, (x + y)[j].1) {
      if j < |x| { assert (x + y)[j] == x[j]; } else { assert (x + y)[j] == y[j - |x|]; }
    }
  }

  lemma MatchInPlace<L, F, S>(cut: Cutter<L, F, S>, pre: seq<L>, lines: seq<L>, post: seq<L>, indent: nat,
      entries: seq<(F, S)>)
    requires Match(cut, lines, indent, entries)
    ensures ReadsAsEntries(cut, pre + (lines + post), |pre|, indent, entries)
  {
  }

  lemma EntriesTail<L, F, S>(cut: Cutter<L, F, S>, lines: seq<L>, i: nat, indent: nat, entries: seq<(F, S)>)
    requires entries != [] && ReadsAsEntries(cut, lines, i, indent, entries)
    ensures ReadsAsEntry(cut, lines[i], indent, entries[0].0, entries[0].1)
    ensures ReadsAsEntries(cut, lines, i + 1, indent, entries[1..])
  {
    var tail := entries[1..];
    forall j {:trigger tail[j]} | 0 <= j < |tail| ensures ReadsAsEntry(cut, lines[i + 1 + j], indent, tail[j].0,
        tail[j].1) {
      assert tail[j] == entries[j + 1];
    }
    assert ReadsAsEntry(cut, lines[i + 0], indent, entries[0].0, entries[0].1);
  }

  lemma {:induction false} EntriesRead<L, F, S>(cut: Cutter<L, F, S>, lines: seq<L>, i: nat, item: Item<F, S>,
      entries: seq<(F, S)>)
    requires ReadsAsEntries(cut, lines, i, 4, entries)
    requires i + |entries| < |lines| ==> !cut.ignored(lines[i + |entries|]) && cut.indent(lines[i + |entries|]) <= 2
    ensures ParseContinuation(cut, lines, i, 2, item) == Ok((WithAll(item, entries), i + |entries|))
    decreases |entries|
  {
    if entries != [] {
      EntriesTail(cut, lines, i, 4, entries);
      EntriesRead(cut, lines, i + 1, item[entries[0].0 := entries[0].1], entries[1..]);
    }
  }

  /** A list of items laid out one after another reads as those items. */
  lemma {:induction false} BlocksRead<L, F, S>(cut: Cutter<L, F, S>, lines: seq<L>, i: nat, listIndent: Option<nat>,
      items: seq<Item<F, S>>, blocks: seq<Block<F, S>>)
    requires i <= |lines| && ReadsAsBlocks(cut, lines, i, blocks) && (listIndent.None? || listIndent.value == 2)
    ensures ParseItems(cut, lines, i, listIndent, items) == Ok((items + ItemsOf(blocks), |lines|))
    decreases |blocks|
  {
    if blocks == [] {
      assert items + [] == items;
    } else {
      var next := i + 1 + |blocks[0].entries|;
      EntriesRead(cut, lines, i + 1, map[blocks[0].key := blocks[0].value], blocks[0].entries);
      BlocksRead(cut, lines, next, Some(2), items + [ItemOf(blocks[0])], blocks[1..]);
      assert (items + [ItemOf(blocks[0])]) + ItemsOf(blocks[1..]) == items + ItemsOf(blocks);
    }
  }

  function AllPlain<F, S>(out: map<F, Value<F, S>>, entries: seq<(F, S)>): map<F, Value<F, S>>
    decreases |entries|
  {
    if entries == [] then out else AllPlain(out[entries[0].0 := Plain(entries[0].1)], entries[1..])
  }

  /** A document of top-level entries and one list at the end reads as just that. */
  lemma {:induction false} DocumentReads<L, F, S>(cut: Cutter<L, F, S>, lines: seq<L>, i: nat,
      out: map<F, Value<F, S>>, entries: seq<(F, S)>,
                                                  key: F, blocks: seq<Block<F, S>>)
    requires ReadsAsEntries(cut, lines, i, 0, entries)
    requires i + |entries| < |lines| && ReadsAsBlock(cut, lines[i + |entries|], key)
    requires blocks != [] && ReadsAsBlocks(cut, lines, i + |entries| + 1, blocks)
    ensures ParseTop(cut, lines, i, out) == Ok(AllPlain(out, entries)[key := Items(ItemsOf(blocks))])
    decreases |entries|
  {
    if entries == [] {
      BlocksRead(cut, lines, i + 1, None, [], blocks);
      assert [] + ItemsOf(blocks) == ItemsOf(blocks);
      assert NextIsItem(cut, lines, i + 1);
    } else {
      EntriesTail(cut, lines, i, 0, entries);
      DocumentReads(cut, lines, i + 1, out[entries[0].0 := Plain(entries[0].1)], entries[1..], key, blocks);
    }
  }

  /** The lines of one item. */
  ghost predicate LaidOut<L, F, S>(cut: Cutter<L, F, S>, lines: seq<L>, block: Block<F, S>) {
    lines != [] && ReadsAsItem(cut, lines[0], block.key, block.value) && Match(cut, lines[1..], 4, block.entries)
  }

  lemma Regroup<T>(pre: seq<T>, lines: seq<T>, rest: seq<T>)
    requires lines != []
    ensures pre + (lines + rest) == (pre + [lines[0]]) + (lines[1..] + rest)
    ensures pre + (lines + rest) == (pre + lines) + rest
    ensures (pre + (lines + rest))[|pre|] == lines[0]
  {
  }

  lemma BlocksCons<L, F, S>(cut: Cutter<L, F, S>, pre: seq<L>, lines: seq<L>, rest: seq<L>, block: Block<F, S>,
      blocks: seq<Block<F, S>>)
    requires LaidOut(cut, lines, block)
    requires ReadsAsBlocks(cut, (pre + lines) + rest, |pre + lines|, blocks)
    ensures ReadsAsBlocks(cut, pre + (lines + rest), |pre|, [block] + blocks)
  {
    Regroup(pre, lines, rest);
    MatchInPlace(cut, pre + [lines[0]], lines[1..], rest, 4, block.entries);
    assert ([block] + blocks)[1..] == blocks;
  }

  lemma DocumentLaidOut<L, F, S>(cut: Cutter<L, F, S>, head: seq<L>, line: L, tail: seq<L>, entries: seq<(F, S)>,
      key: F, blocks: seq<Block<F, S>>)
    requires Match(cut, head, 0, entries) && ReadsAsBlock(cut, line, key)
    requires blocks != [] && ReadsAsBlocks(cut, (head + [line]) + tail, |head| + 1, blocks)
    ensures ParseTop(cut, (head + [line]) + tail, 0,
            map[]) == Ok(AllPlain(map[], entries)[key := Items(ItemsOf(blocks))])
  {
    MatchInPlace(cut, [], head, [line] + tail, 0, entries);
    assert (head + [line]) + tail == [] + (head + ([line] + tail));
    assert ((head + [line]) + tail)[|head|] == line;
    DocumentReads(cut, (head + [line]) + tail, 0, map[], entries, key, blocks);
  }

  // ---- Whatever is read has been on some line ---------------------------------------------

  /** Every value that a line gives satisfies `good`. */
  ghost predicate LinesGive<L, F(!new), S>(cut: Cutter<L, F, S>, lines: seq<L>, good: S -> bool) {
    forall i {:trigger lines[i]} :: 0 <= i < |lines| ==>
      && (cut.entry(lines[i]).Some? ==> good(cut.entry(lines[i]).value.1))
      && (cut.first(lines[i]).Some? ==> GoodItem(cut.first(lines[i]).value, good))
  }

  ghost predicate GoodItem<F(!new), S>(item: Item<F, S>, good: S -> bool) {
    forall f {:trigger item[f]} :: f in item ==> good(item[f])
  }

  ghost predicate GoodValue<F(!new), S>(value: Value<F, S>, good: S -> bool) {
    match value
    case Plain(scalar) => good(scalar)
    case Items(items) => GoodItems(items, good)
  }

  ghost predicate GoodItems<F(!new), S>(items: seq<Item<F, S>>, good: S -> bool) {
    forall i {:trigger items[i]} :: 0 <= i < |items| ==> GoodItem(items[i], good)
  }

  ghost predicate GoodDocument<F(!new), S>(out: map<F, Value<F, S>>, good: S -> bool) {
    forall f {:trigger out[f]} :: f in out ==> GoodValue(out[f], good)
  }

  lemma {:induction false} ContinuationIsGood<L, F(!new), S>(cut: Cutter<L, F, S>, lines: seq<L>, i: nat, indent: nat,
      item: Item<F, S>, good: S -> bool)
    requires i <= |lines| && LinesGive(cut, lines, good) && GoodItem(item, good)
    ensures var r := ParseContinuation(cut, lines, i, indent, item); r.Ok? ==> GoodItem(r.value.0, good)
    decreases |lines| - i
  {
    if i < |lines| {
      if cut.ignored(lines[i]) {
        ContinuationIsGood(cut, lines, i + 1, indent, item, good);
      } else if cut.entry(lines[i]).Some? {
        var entry := cut.entry(lines[i]).value;
        ContinuationIsGood(cut, lines, i + 1, indent, item[entry.0 := entry.1], good);
      }
    }
  }

  lemma {:induction false} ItemsAreGood<L, F(!new), S>(cut: Cutter<L, F, S>, lines: seq<L>, i: nat,
      listIndent: Option<nat>, items: seq<Item<F, S>>, good: S -> bool)
    requires i <= |lines| && LinesGive(cut, lines, good) && GoodItems(items, good)
    ensures var r := ParseItems(cut, lines, i, listIndent, items); r.Ok? ==> GoodItems(r.value.0, good)
    decreases |lines| - i
  {
    if i < |lines| {
      if cut.ignored(lines[i]) {
        ItemsAreGood(cut, lines, i + 1, listIndent, items, good);
      } else if cut.first(lines[i]).Some? {
        var indent, first := cut.indent(lines[i]), cut.first(lines[i]).value;
        ContinuationIsGood(cut, lines, i + 1, indent, first, good);
        var r := ParseContinuation(cut, lines, i + 1, indent, first);
        if r.Ok? {
          ItemsAreGood(cut, lines, r.value.1, Some(indent), items + [r.value.0], good);
        }
      }
    }
  }

  /** All values of a document that was read come from its lines. */
  lemma {:induction false} DocumentIsGood<L, F(!new), S>(cut: Cutter<L, F, S>, lines: seq<L>, i: nat,
      out: map<F, Value<F, S>>, good: S -> bool)
    requires i <= |lines| && LinesGive(cut, lines, good) && GoodDocument(out, good)
    ensures var r := ParseTop(cut, lines, i, out); r.Ok? ==> GoodDocument(r.value, good)
    decreases |lines| - i
  {
    if i < |lines| {
      if cut.ignored(lines[i]) {
        DocumentIsGood(cut, lines, i + 1, out, good);
      } else if cut.entry(lines[i]).Some? {
        var entry := cut.entry(lines[i]).value;
        DocumentIsGood(cut, lines, i + 1, out[entry.0 := Plain(entry.1)], good);
        ItemsAreGood(cut, lines, i + 1, None, [], good);
        var r := ParseItems(cut, lines, i + 1, None, []);
        if r.Ok? {
          DocumentIsGood(cut, lines, r.value.1, out[entry.0 := Items(r.value.0)], good);
        }
      }
    }
  }
}
