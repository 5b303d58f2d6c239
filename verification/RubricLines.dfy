/** How one line of a rubric's front matter is cut up, and what the lines that are
    written read as. */
module RubricLines {
  import opened Options
  import opened RubricGrammar
  import opened RubricScalars

  /** The names that the schema knows, and all others. */
  datatype Field =
    | Version | Source | GeneratedAt | PlanSlug | Goal | Engine | Criteria
    | Id | Description | Weight | EvidenceHint
    | Other(name: string)

  function FieldNamed(s: string): Field {
    if s == "version" then Version
    else if s == "source" then Source
    else if s == "generatedAt" then GeneratedAt
    else if s == "planSlug" then PlanSlug
    else if s == "goal" then Goal
    else if s == "engine" then Engine
    else if s == "criteria" then Criteria
    else if s == "id" then Id
    else if s == "description" then Description
    else if s == "weight" then Weight
    else if s == "evidenceHint" then EvidenceHint
    else Other(s)
  }

  function NameOf(f: Field): string {
    match f
    case Version => "version"
    case Source => "source"
    case GeneratedAt => "generatedAt"
    case PlanSlug => "planSlug"
    case Goal => "goal"
    case Engine => "engine"
    case Criteria => "criteria"
    case Id => "id"
    case Description => "description"
    case Weight => "weight"
    case EvidenceHint => "evidenceHint"
    case Other(name) => name
  }

  function IndexOf(s: string, c: char): (n: nat)
    ensures n <= |s| && (n < |s| <==> c in s) && (n < |s| ==> s[n] == c) && c !in s[..n]
  {
    if s == "" || s[0] == c then 0 else 1 + IndexOf(s[1..], c)
  }

  predicate Ignored(line: string) {
    var trimmed := Trim(line);
    trimmed == "" || trimmed[0] == '#'
  }

  /** `/^\s*-\s/` */
  predicate StartsItem(line: string) {
    var n := Indent(line);
    n + 1 < |line| && line[n] == '-' && IsSpace(line[n + 1])
  }

  /** What follows the dash: `/^(\s*)-\s+(.*)$/`, where the dot stops at line separators. */
  function AfterDash(line: string): Option<string> {
    if !StartsItem(line) then None
    else
      var inline := TrimStart(line[Indent(line) + 1..]);
      if '\U{2028}' in inline || '\U{2029}' in inline then None else Some(inline)
  }

  /** `/^["'][^"']*$/` */
  predicate OpensQuote(s: string) {
    s != "" && (s[0] == '"' || s[0] == '\'') && '"' !in s[1..] && '\'' !in s[1..]
  }

  function TextAfterColon(line: string): string
    requires ':' in line
  {
    Trim(line[IndexOf(line, ':') + 1..])
  }

  function Read<N>(numbers: Numbers<N>, s: string): Scalar<N> {
    CoerceScalar(numbers, StripQuotes(s))
  }

  function EntryOf<N>(numbers: Numbers<N>, line: string): Option<(Field, Scalar<N>)> {
    if ':' in line then Some((FieldNamed(Trim(line[..IndexOf(line, ':')])), Read(numbers, TextAfterColon(line))))
        else None
  }

  function FirstOf<N>(numbers: Numbers<N>, line: string): Option<map<Field, Scalar<N>>> {
    var inline := AfterDash(line);
    if inline.None? then None
    else
      var entry := EntryOf(numbers, inline.value);
      if entry.Some? && !OpensQuote(inline.value) then Some(map[entry.value.0 := entry.value.1])
      else Some(map[Other("__value__") := Read(numbers, inline.value)])
  }

  function RubricCutter<N>(numbers: Numbers<N>): Cutter<string, Field, Scalar<N>> {
    Cutter(Ignored, Indent, StartsItem, line => FirstOf(numbers, line), line => EntryOf(numbers, line),
           line => ':' in line && TextAfterColon(line) == "")
  }

  // ---- Trimming and searching -------------------------------------------------------

  lemma {:induction false} TrimStartSkips(pre: string, s: string)
    requires forall i :: 0 <= i < |pre| ==> IsSpace(pre[i])
    requires s != "" ==> !IsSpace(s[0])
    ensures TrimStart(pre + s) == s && Indent(pre + s) == |pre|
  {
    if pre == "" {
      assert pre + s == s;
    } else {
      assert (pre + s)[1..] == pre[1..] + s;
      TrimStartSkips(pre[1..], s);
    }
  }

  lemma {:induction false} TrimEndKeepsStart(s: string)
    requires s != "" && !IsSpace(s[0])
    ensures TrimEnd(s) != "" && TrimEnd(s)[0] == s[0]
  {
    if IsSpace(s[|s| - 1]) {
      TrimEndKeepsStart(s[..|s| - 1]);
    }
  }

  lemma TrimToken(pre: string, s: string)
    requires Token(s) && forall i :: 0 <= i < |pre| ==> IsSpace(pre[i])
    ensures Trim(pre + s) == s
  {
    TrimStartSkips(pre, s);
  }

  lemma {:induction false} IndexOfFirst(pre: string, c: char, rest: string)
    requires c !in pre
    ensures IndexOf(pre + [c] + rest, c) == |pre|
  {
    var s := pre + [c] + rest;
    if pre != "" {
      assert s[1..] == pre[1..] + [c] + rest;
      IndexOfFirst(pre[1..], c, rest);
    }
  }

  // ---- Written lines ------------------------------------------------------------------

  predicate IsLetter(c: char) {
    'a' <= c <= 'z' || 'A' <= c <= 'Z'
  }

  predicate IsName(s: string) {
    s != "" && forall i :: 0 <= i < |s| ==> IsLetter(s[i])
  }

  function KeyLine(pre: string, key: string, text: string): string {
    (pre + key) + [':'] + ([' '] + text)
  }

  predicate Spaces(pre: string) {
    forall i :: 0 <= i < |pre| ==> pre[i] == ' '
  }

  /** A written entry has its indentation, its key and its text, and is no list item. */
  lemma KeyLineParts(pre: string, key: string, text: string)
    requires Spaces(pre) && IsName(key) && Token(text)
    ensures var line := KeyLine(pre, key, text);
            && Indent(line) == |pre| && !Ignored(line) && !StartsItem(line)
            && ':' in line && Trim(line[..IndexOf(line, ':')]) == key && TextAfterColon(line) == text
  {
    var line := KeyLine(pre, key, text);
    assert ':' !in pre + key by {
      assert forall i :: 0 <= i < |pre + key| ==> (pre + key)[i] == ' ' || IsLetter((pre + key)[i]);
    }
    IndexOfFirst(pre + key, ':', [' '] + text);
    assert line[..|pre + key|] == pre + key;
    assert line[|pre + key| + 1..] == [' '] + text;
    TrimToken(pre, key);
    TrimToken([' '], text);
    KeyLineStart(pre, key, text);
  }

  lemma LetterIsKept(line: string, rest: string)
    requires TrimStart(line) == rest && rest != "" && IsLetter(rest[0])
    ensures !Ignored(line)
  {
    TrimEndKeepsStart(rest);
    assert Trim(line)[0] == rest[0];
  }

  lemma LetterIsNoDash(line: string)
    requires Indent(line) < |line| && IsLetter(line[Indent(line)])
    ensures !StartsItem(line)
  {
  }

  /** A line whose first character past the spaces is a letter. */
  lemma LetterFirst(pre: string, rest: string)
    requires Spaces(pre) && rest != "" && IsLetter(rest[0])
    ensures Indent(pre + rest) == |pre| && !Ignored(pre + rest) && !StartsItem(pre + rest)
  {
    var line := pre + rest;
    TrimStartSkips(pre, rest);
    LetterIsKept(line, rest);
    assert line[|pre|] == rest[0];
    LetterIsNoDash(line);
  }

  lemma KeyLineStart(pre: string, key: string, text: string)
    requires Spaces(pre) && IsName(key)
    ensures var line := KeyLine(pre, key, text);
            Indent(line) == |pre| && !Ignored(line) && !StartsItem(line)
  {
    var rest := key + [':'] + ([' '] + text);
    assert KeyLine(pre, key, text) == pre + rest && rest[0] == key[0];
    LetterFirst(pre, rest);
  }

  lemma KeyLineLacks(key: string, text: string, c: char)
    requires IsName(key) && c !in text && !IsLetter(c) && c != ':' && c != ' '
    ensures c !in KeyLine("", key, text)
  {
    assert c !in "" + key;
    assert c !in [' '] + text;
  }

  lemma DashLineStart(inner: string)
    requires inner != "" && IsLetter(inner[0])
    ensures var line := [' ', ' '] + (['-', ' '] + inner);
            Indent(line) == 2 && !Ignored(line)
  {
    var rest := ['-', ' '] + inner;
    TrimStartSkips([' ', ' '], rest);
    TrimEndKeepsStart(rest);
  }

  lemma DashLineInner(inner: string)
    requires inner != "" && IsLetter(inner[0])
    requires '\U{2028}' !in inner && '\U{2029}' !in inner
    ensures var line := [' ', ' '] + (['-', ' '] + inner);
            StartsItem(line) && AfterDash(line) == Some(inner)
  {
    var line := [' ', ' '] + (['-', ' '] + inner);
    DashLineStart(inner);
    assert line[2] == '-' && line[3] == ' ';
    assert line[3..] == [' '] + inner;
    TrimStartSkips([' '], inner);
  }

  function DashLine(key: string, text: string): string {
    [' ', ' '] + (['-', ' '] + KeyLine("", key, text))
  }

  /** The first line of a list item reads as its one entry. */
  lemma DashLineParts(key: string, text: string)
    requires IsName(key) && Token(text) && '\U{2028}' !in text && '\U{2029}' !in text
    ensures var line := DashLine(key, text);
            && Indent(line) == 2 && !Ignored(line) && StartsItem(line)
            && AfterDash(line) == Some(KeyLine("", key, text)) && !OpensQuote(KeyLine("", key, text))
  {
    var inner := KeyLine("", key, text);
    assert inner[0] == key[0];
    KeyLineLacks(key, text, '\U{2028}');
    KeyLineLacks(key, text, '\U{2029}');
    DashLineStart(inner);
    DashLineInner(inner);
  }

  // ---- What written lines read as --------------------------------------------------------

  lemma FieldNames(f: Field)
    requires !f.Other?
    ensures FieldNamed(NameOf(f)) == f && IsName(NameOf(f))
  {
    match f
    case Version => assert NameOf(f)[0] == 'v';
    case Source => assert NameOf(f)[0] == 's';
    case GeneratedAt => assert |NameOf(f)| == 11 && NameOf(f)[0] == 'g';
    case PlanSlug => assert NameOf(f)[0] == 'p';
    case Goal => assert |NameOf(f)| == 4;
    case Engine => assert |NameOf(f)| == 6 && NameOf(f)[0] == 'e';
    case Criteria => assert |NameOf(f)| == 8 && NameOf(f)[0] == 'c';
    case Id => assert |NameOf(f)| == 2;
    case Description => assert NameOf(f)[0] == 'd';
    case Weight => assert |NameOf(f)| == 6 && NameOf(f)[0] == 'w';
    case EvidenceHint => assert |NameOf(f)| == 12;
  }

  lemma KeyLineEntry<N>(numbers: Numbers<N>, pre: string, key: string, text: string)
    requires Spaces(pre) && IsName(key) && Token(text)
    ensures EntryOf(numbers, KeyLine(pre, key, text)) == Some((FieldNamed(key), Read(numbers, text)))
  {
    KeyLineParts(pre, key, text);
  }

  lemma DashLineFirst<N>(numbers: Numbers<N>, key: string, text: string)
    requires IsName(key) && Token(text) && '\U{2028}' !in text && '\U{2029}' !in text
    ensures FirstOf(numbers, DashLine(key, text)) == Some(map[FieldNamed(key) := Read(numbers, text)])
  {
    DashLineParts(key, text);
    KeyLineEntry(numbers, "", key, text);
    InnerEntryIsFirst(numbers, DashLine(key, text), KeyLine("", key, text), FieldNamed(key), Read(numbers, text));
  }

  lemma InnerEntryIsFirst<N>(numbers: Numbers<N>, line: string, inner: string, f: Field, value: Scalar<N>)
    requires AfterDash(line) == Some(inner) && !OpensQuote(inner) && EntryOf(numbers, inner) == Some((f, value))
    ensures FirstOf(numbers, line) == Some(map[f := value])
  {
  }

  lemma BlockLineStart(line: string)
    requires line != [] && IsLetter(line[0])
    ensures Indent(line) == 0 && !Ignored(line)
  {
    assert [] + line == line;
    LetterFirst([], line);
  }

  lemma ColonEnds(key: string)
    requires ':' !in key
    ensures IndexOf(key + [':'], ':') == |key|
  {
    assert key + [':'] + [] == key + [':'];
    IndexOfFirst(key, ':', []);
  }

  lemma BlockLineParts(line: string, key: string)
    requires IsName(key) && line == key + [':']
    ensures ':' in line && Trim(line[..IndexOf(line, ':')]) == key && TextAfterColon(line) == ""
  {
    ColonEnds(key);
    assert line[..|key|] == key && line[|key| + 1..] == [];
    assert [] + key == key;
    TrimToken([], key);
  }

  lemma BlockLineReads<N>(numbers: Numbers<N>, line: string, key: string)
    requires ':' in line && Trim(line[..IndexOf(line, ':')]) == key && TextAfterColon(line) == ""
    requires Indent(line) == 0 && !Ignored(line)
    ensures ReadsAsBlock(RubricCutter(numbers), line, FieldNamed(key))
  {
  }

  lemma WrittenEntry<N>(numbers: Numbers<N>, pre: string, key: string, text: string)
    requires IsName(key) && Spaces(pre) && Token(text)
    ensures ReadsAsEntry(RubricCutter(numbers), KeyLine(pre, key, text), |pre|, FieldNamed(key), Read(numbers, text))
  {
    KeyLineParts(pre, key, text);
    KeyLineEntry(numbers, pre, key, text);
  }

  lemma WrittenItem<N>(numbers: Numbers<N>, key: string, text: string)
    requires IsName(key) && Token(text) && '\U{2028}' !in text && '\U{2029}' !in text
    ensures ReadsAsItem(RubricCutter(numbers), DashLine(key, text), FieldNamed(key), Read(numbers, text))
  {
    DashLineParts(key, text);
    DashLineFirst(numbers, key, text);
  }

  lemma WrittenBlock<N>(numbers: Numbers<N>, key: string)
    requires IsName(key)
    ensures ReadsAsBlock(RubricCutter(numbers), key + [':'], FieldNamed(key))
  {
    var line := key + [':'];
    BlockLineParts(line, key);
    BlockLineStart(line);
    BlockLineReads(numbers, line, key);
  }
}
