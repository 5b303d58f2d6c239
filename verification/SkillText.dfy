/** The front matter of a skill file: one entry a line, the last one of a key counts, and
    everything below the closing delimiter is the body. */
module SkillText {
  import opened Options
  import opened OrderedMaps
  import opened RubricForms
  import opened RubricLines
  import opened Rubrics
  import opened RubricScalars
  import opened Splitting

  // ---- Documents of lines between two delimiters --------------------------------------------

  datatype Document<L, K, V> = Document(front: OrderedMap<K, V>, body: seq<L>, delimited: bool)

  /** The last entry of each key, in the order in which the keys are first set. */
  function Entries<L, K(==), V>(entryOn: L -> Option<(K, V)>, lines: seq<L>): OrderedMap<K, V> {
    if lines == [] then Empty()
    else
      var rest, entry := Entries(entryOn, lines[..|lines| - 1]), entryOn(lines[|lines| - 1]);
      if entry.None? then rest else Set(rest, entry.value.0, entry.value.1)
  }

  function Divide<L, K(==), V>(isDelimiter: L -> bool, entryOn: L -> Option<(K, V)>, lines: seq<L>): Document<L, K, V>
    requires lines != []
  {
    var close := FirstFrom(isDelimiter, lines, 1);
    if !isDelimiter(lines[0]) || close == |lines| then Document(Empty(), lines, false)
    else Document(Entries(entryOn, lines[1..close]), lines[close + 1..], true)
  }

  method DivideLines<L, K(==), V>(isDelimiter: L -> bool, entryOn: L -> Option<(K, V)>, lines: seq<L>)
      returns (d: Document<L, K, V>)
    requires lines != []
    ensures d == Divide(isDelimiter, entryOn, lines)
  {
    if !isDelimiter(lines[0]) { return Document(Empty(), lines, false); }
    var close := 1;
    while close < |lines| && !isDelimiter(lines[close])
      invariant 1 <= close <= |lines| && FirstFrom(isDelimiter, lines, 1) == FirstFrom(isDelimiter, lines, close)
    {
      close := close + 1;
    }
    if close == |lines| { return Document(Empty(), lines, false); }
    var front: OrderedMap<K, V> := Empty();
    for i := 1 to close
      invariant front == Entries(entryOn, lines[1..i])
    {
      assert lines[1..i + 1][..i - 1] == lines[1..i];
      var entry := entryOn(lines[i]);
      if entry.Some? {
        front := Set(front, entry.value.0, entry.value.1);
      }
    }
    return Document(front, lines[close + 1..], true);
  }

  lemma {:induction false} EntriesAreValid<L, K(!new), V>(entryOn: L -> Option<(K, V)>, lines: seq<L>)
    ensures OrderedMaps.Valid(Entries(entryOn, lines))
  {
    if lines != [] {
      var before, entry := lines[..|lines| - 1], entryOn(lines[|lines| - 1]);
      EntriesAreValid(entryOn, before);
      if entry.Some? {
        SetKeepsValid(Entries(entryOn, before), entry.value.0, entry.value.1);
      }
    }
  }

  predicate Sets<L, K(==), V>(entryOn: L -> Option<(K, V)>, line: L, key: K) {
    entryOn(line).Some? && entryOn(line).value.0 == key
  }

  predicate SetNowhere<L, K(==), V>(entryOn: L -> Option<(K, V)>, lines: seq<L>, key: K) {
    forall i {:trigger lines[i]} :: 0 <= i < |lines| ==> !Sets(entryOn, lines[i], key)
  }

  /** Line `i` sets the key for the last time. */
  predicate SetsLast<L, K(==), V>(entryOn: L -> Option<(K, V)>, lines: seq<L>, i: nat, key: K)
    requires i < |lines|
  {
    Sets(entryOn, lines[i], key) && forall j {:trigger lines[j]} :: i < j < |lines| ==> !Sets(entryOn, lines[j], key)
  }

  /** The value of a key is that of the last line which sets it, and a key that no line
      sets has none. */
  lemma {:induction false} LastEntryCounts<L, K, V>(entryOn: L -> Option<(K, V)>, lines: seq<L>, key: K)
    ensures key !in Entries(entryOn, lines).entries <==> SetNowhere(entryOn, lines, key)
    ensures forall i {:trigger SetsLast(entryOn, lines, i, key)} ::
              0 <= i < |lines| && SetsLast(entryOn, lines, i, key) ==>
                key in Entries(entryOn, lines).entries
                && Entries(entryOn, lines).entries[key] == entryOn(lines[i]).value.1
  {
    if lines != [] {
      var n := |lines| - 1;
      var before := lines[..n];
      LastEntryCounts(entryOn, before, key);
      assert forall i {:trigger before[i]} {:trigger lines[i]} :: 0 <= i < n ==> lines[i] == before[i];
      forall i | 0 <= i < |lines| && SetsLast(entryOn, lines, i, key)
        ensures key in Entries(entryOn, lines).entries
                && Entries(entryOn, lines).entries[key] == entryOn(lines[i]).value.1
      {
        if i < n {
          assert !Sets(entryOn, lines[n], key);
          assert SetsLast(entryOn, before, i, key);
        }
      }
    }
  }

  /** The lines up to the closing delimiter, with their entries, and the body are all the lines. */
  ghost predicate Reassembles<L, K, V>(isDelimiter: L -> bool, entryOn: L -> Option<(K, V)>, lines: seq<L>,
      d: Document<L, K, V>, head: seq<L>) {
    && |head| >= 2 && isDelimiter(head[0]) && isDelimiter(head[|head| - 1])
    && d.front == Entries(entryOn, head[1..|head| - 1]) && lines == head + d.body
  }

  lemma DivideKeepsLines<L, K, V>(isDelimiter: L -> bool, entryOn: L -> Option<(K, V)>, lines: seq<L>)
      returns (head: seq<L>)
    requires lines != []
    ensures var d := Divide(isDelimiter, entryOn, lines);
            if d.delimited then Reassembles(isDelimiter, entryOn, lines, d, head)
                else d.body == lines && d.front == Empty()
  {
    head := [];
    if Divide(isDelimiter, entryOn, lines).delimited {
      var close := FirstFrom(isDelimiter, lines, 1);
      FirstFromHits(isDelimiter, lines, 1);
      head := lines[..close + 1];
      assert head[1..|head| - 1] == lines[1..close];
    }
  }

  predicate HasFrom<L>(isDelimiter: L -> bool, lines: seq<L>, i: nat) {
    exists j {:trigger lines[j]} :: i <= j < |lines| && isDelimiter(lines[j])
  }

  /** Line `n` is the first delimiter after the first line. */
  predicate ClosesAt<L>(isDelimiter: L -> bool, lines: seq<L>, n: nat) {
    && 1 <= n < |lines| && isDelimiter(lines[n])
    && forall j {:trigger lines[j]} :: 1 <= j < n ==> !isDelimiter(lines[j])
  }

  lemma DivideMeans<L, K, V>(isDelimiter: L -> bool, entryOn: L -> Option<(K, V)>, lines: seq<L>, n: nat)
    requires lines != []
    ensures var d := Divide(isDelimiter, entryOn, lines);
            && (d.delimited <==> isDelimiter(lines[0]) && HasFrom(isDelimiter, lines, 1))
            && (isDelimiter(lines[0]) && ClosesAt(isDelimiter, lines, n) ==>
                  d.delimited && d.front == Entries(entryOn, lines[1..n]) && d.body == lines[n + 1..])
  {
    FirstFromHits(isDelimiter, lines, 1);
    FirstFromMisses(isDelimiter, lines, 1);
    if ClosesAt(isDelimiter, lines, n) {
      FirstFromSkips(isDelimiter, lines, 1, n);
    }
  }

  // ---- Skill files ----------------------------------------------------------------------------

  datatype Parsed = Parsed(frontmatter: OrderedMap<string, string>, body: string, hasFrontmatter: bool)

  /** The entry of a line, if it has a key. */
  function EntryOn(line: string): Option<(string, string)> {
    if Ignored(line) || ':' !in line then None
    else
      var colon := IndexOf(line, ':');
      var key := Trim(line[..colon]);
      if key == [] then None else Some((key, StripQuotes(Trim(line[colon + 1..]))))
  }

  function ParseFrontmatter(text: string): Parsed {
    var lines := Split('\n', NormaliseBreaks(text));
    var d := Divide(IsDelimiter, EntryOn, lines);
    Parsed(d.front, if d.delimited then Join(['\n'], d.body) else NormaliseBreaks(text), d.delimited)
  }

  method ParseSkillText(text: string) returns (parsed: Parsed)
    ensures parsed == ParseFrontmatter(text)
  {
    var normalized := NormaliseBreaks(text);
    var d := DivideLines(IsDelimiter, EntryOn, Split('\n', normalized));
    parsed := Parsed(d.front, if d.delimited then Join(['\n'], d.body) else normalized, d.delimited);
  }

  /** The lines of the front matter, a line break, and the body are the whole text again,
      with its line breaks normalised; a text without front matter is all body. */
  lemma NothingIsLost(text: string) returns (head: seq<string>)
    ensures var parsed, normalized := ParseFrontmatter(text), NormaliseBreaks(text);
            if parsed.hasFrontmatter then
              && |head| >= 2 && IsDelimiter(head[0]) && IsDelimiter(head[|head| - 1])
              && parsed.frontmatter == Entries(EntryOn, head[1..|head| - 1])
              && (normalized == Join(['\n'], head) + ['\n'] + parsed.body
                  || (parsed.body == [] && normalized == Join(['\n'], head)))
            else parsed.body == normalized && parsed.frontmatter == Empty()
  {
    var normalized := NormaliseBreaks(text);
    var lines := Split('\n', normalized);
    var d := Divide(IsDelimiter, EntryOn, lines);
    JoinUndoesSplit('\n', normalized);
    head := DivideKeepsLines(IsDelimiter, EntryOn, lines);
    if d.delimited {
      if d.body != [] {
        JoinAppend('\n', head, d.body);
      } else {
        assert head + [] == head;
      }
    }
  }

  /** The record of the front matter has each of its keys once. */
  lemma FrontMatterIsValid(text: string)
    ensures OrderedMaps.Valid(ParseFrontmatter(text).frontmatter)
  {
    var lines := Split('\n', NormaliseBreaks(text));
    var close := FirstFrom(IsDelimiter, lines, 1);
    if IsDelimiter(lines[0]) && close < |lines| {
      EntriesAreValid(EntryOn, lines[1..close]);
    }
  }

  /** A line sets a key exactly when it is no comment and has a colon with something before it:
      the key is what stands before the first colon, the value what stands after it, both without
      the white space around them, and the value without its quotes. */
  lemma EntryOnByColon(line: string, a: string, key: string, b: string, c: string, value: string, d: string)
    requires Blank(a) && Blank(b) && Blank(c) && Blank(d)
    requires (key == "" || Token(key)) && ':' !in key && (value == "" || Token(value))
    ensures Ignored(line) || ':' !in line ==> EntryOn(line).None?
    ensures var written := (((a + key) + b) + [':']) + ((c + value) + d);
            EntryOn(written) == if key == "" || Ignored(written) then None else Some((key, StripQuotes(value)))
  {
    var left, right := (a + key) + b, (c + value) + d;
    var all := (left + [':']) + right;
    assert ':' !in left by {
      assert ':' !in a && ':' !in b by { assert !IsSpace(':'); }
    }
    IndexOfFirst(left, ':', right);
    assert all[..|left|] == left && all[|left| + 1..] == right;
    TrimTakesBlanks(a, key, b);
    TrimTakesBlanks(c, value, d);
  }

  /** Front matter is there exactly when the first line is a delimiter and a later one is, too;
      the first such line closes it. */
  lemma WhereFrontMatterIs(text: string, n: nat)
    ensures var lines, parsed := Split('\n', NormaliseBreaks(text)), ParseFrontmatter(text);
            && (parsed.hasFrontmatter <==> IsDelimiter(lines[0]) && HasFrom(IsDelimiter, lines, 1))
            && (IsDelimiter(lines[0]) && ClosesAt(IsDelimiter, lines, n) ==>
                  parsed.frontmatter == Entries(EntryOn, lines[1..n]) && parsed.body == Join(['\n'], lines[n + 1..]))
  {
    DivideMeans(IsDelimiter, EntryOn, Split('\n', NormaliseBreaks(text)), n);
  }
}
