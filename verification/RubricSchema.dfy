/** The schema of rubrics, both ways: which documents it accepts, as which rubrics; how the
    lines of a rubric are written; and where front matter begins and ends. */
module RubricSchema {
  import opened Options
  import opened RubricForms
  import opened RubricGrammar
  import opened RubricLines
  import opened RubricScalars
  import opened Rubrics
  import opened Splitting

  /** The item holds just what the criterion says. */
  ghost predicate SaysItem<N>(m: Item<Field, Scalar<N>>, c: Criterion<N>) {
    && Id in m && m[Id] == Str(c.id) && Description in m && m[Description] == Str(c.description)
    && (Weight in m <==> c.weight.Some?) && (Weight in m ==> m[Weight] == Num(c.weight.value))
    && (EvidenceHint in m <==> c.evidenceHint.Some?)
        && (EvidenceHint in m ==> m[EvidenceHint] == Str(c.evidenceHint.value))
  }

  /** The bounds of the schema on a criterion: c and digits, at least ten code units, a weight
      between zero and one. */
  ghost predicate CriterionBounds<N>(lib: Library<N>, c: Criterion<N>) {
    && |c.id| >= 2 && c.id[0] == 'c' && (forall i :: 1 <= i < |c.id| ==> '0' <= c.id[i] <= '9')
    && Units(c.description) >= 10
    && (c.weight.Some? ==> lib.numbers.inUnit(c.weight.value))
  }

  /** The two code units that stand for one character beyond the first plane. */
  ghost predicate IsPair(c: char, high: int, low: int) {
    && 0xD800 <= high < 0xDC00 && 0xDC00 <= low < 0xE000
    && c as int == 0x1_0000 + (high - 0xD800) * 0x400 + (low - 0xDC00)
  }

  /** The length of a text is in code units, of which some characters take a pair. */
  lemma UnitsByCharacter(c: char, s: string)
    ensures Units("") == 0
    ensures Units([c] + s) == Units(s) + if exists high, low :: IsPair(c, high, low) then 2 else 1
  {
    assert ([c] + s)[1..] == s;
    if c as int >= 0x1_0000 {
      var n := c as int - 0x1_0000;
      assert IsPair(c, 0xD800 + n / 0x400, 0xDC00 + n % 0x400);
    }
  }

  lemma IdIsLetterAndDigits(s: string)
    ensures CriterionId(s) <==> |s| >= 2 && s[0] == 'c' && forall i :: 1 <= i < |s| ==> '0' <= s[i] <= '9'
  {
    if s != "" {
      var digits := s[1..];
      AllDigitsIff(digits);
      assert forall i {:trigger digits[i]} :: 0 <= i < |digits| ==> digits[i] == s[i + 1];
      assert forall i {:trigger s[i]} :: 1 <= i < |s| ==> s[i] == digits[i - 1];
    }
  }

  lemma CriterionIff<N>(lib: Library<N>, m: Item<Field, Scalar<N>>, c: Criterion<N>)
    ensures CheckCriterion(lib, m) == Ok(c) <==> SaysItem(m, c) && CriterionBounds(lib, c)
  {
    IdIsLetterAndDigits(c.id);
    if CheckCriterion(lib, m).Ok? {
      IdIsLetterAndDigits(CheckCriterion(lib, m).value.id);
    }
  }

  lemma {:induction false} CriteriaIff<N>(lib: Library<N>, items: seq<Item<Field, Scalar<N>>>, cs: seq<Criterion<N>>)
    ensures CheckCriteria(lib, items) == Ok(cs) <==>
            && |items| == |cs|
            && forall i {:trigger items[i]} {:trigger cs[i]} :: 0 <= i < |cs| ==>
                SaysItem(items[i], cs[i]) && CriterionBounds(lib, cs[i])
  {
    if items != [] && cs != [] {
      CriterionIff(lib, items[0], cs[0]);
      CriteriaIff(lib, items[1..], cs[1..]);
      assert forall i {:trigger items[1..][i]} :: 0 <= i < |items| - 1 ==> items[1..][i] == items[i + 1];
      assert forall i {:trigger cs[1..][i]} :: 0 <= i < |cs| - 1 ==> cs[1..][i] == cs[i + 1];
      assert forall i {:trigger items[i]} {:trigger cs[i]} :: 1 <= i < |cs| && i < |items| ==>
          items[i] == items[1..][i - 1] && cs[i] == cs[1..][i - 1];
      assert cs == [cs[0]] + cs[1..];
    }
  }

  /** The document holds just what the rubric says. */
  ghost predicate Says<N>(lib: Library<N>, m: Document<N>, r: Rubric<N>) {
    && Version in m && m[Version] == Plain(Num(lib.numbers.one))
    && Source in m
    && m[Source] == Plain(Str(match r.source case Auto => "auto" case User => "user" case Edited => "edited"))
    && GeneratedAt in m && m[GeneratedAt] == Plain(Str(r.generatedAt))
    && PlanSlug in m && m[PlanSlug] == Plain(Str(r.planSlug)) && Goal in m && m[Goal] == Plain(Str(r.goal))
    && (Engine in m <==> r.engine.Some?) && (Engine in m ==> m[Engine] == Plain(Str(r.engine.value)))
    && Criteria in m && m[Criteria].Items? && |m[Criteria].items| == |r.criteria|
    && forall i {:trigger r.criteria[i]} :: 0 <= i < |r.criteria| ==> SaysItem(m[Criteria].items[i], r.criteria[i])
  }

  ghost predicate Bounds<N>(lib: Library<N>, r: Rubric<N>) {
    && lib.datetime(r.generatedAt) && |r.planSlug| >= 1 && |r.goal| >= 1 && 3 <= |r.criteria| <= 15
    && forall i {:trigger r.criteria[i]} :: 0 <= i < |r.criteria| ==> CriterionBounds(lib, r.criteria[i])
  }

  lemma ValidIffBounds<N>(lib: Library<N>, r: Rubric<N>)
    ensures Valid(lib, r) <==> Bounds(lib, r)
  {
    forall i | 0 <= i < |r.criteria| ensures ValidCriterion(lib, r.criteria[i]) <==>
        CriterionBounds(lib, r.criteria[i]) {
      IdIsLetterAndDigits(r.criteria[i].id);
    }
  }

  lemma OriginsAreSpelled(o: Origin, s: string)
    ensures OriginText(o) == match o case Auto => "auto" case User => "user" case Edited => "edited"
    ensures OriginNamed(s) == Some(o) <==> s == OriginText(o)
  {
    assert |"auto"| == |"user"| == 4 && |"edited"| == 6 && "auto"[0] == 'a' && "user"[0] == 'u';
  }

  /** The schema accepts a document as a rubric if and only if the document says just that and
      the rubric keeps to the bounds. */
  lemma SchemaIff<N(!new)>(lib: Library<N>, m: Document<N>, r: Rubric<N>)
    ensures CheckRubric(lib, m) == Ok(r) <==> Says(lib, m, r) && Bounds(lib, r)
  {
    ValidIffBounds(lib, r);
    if CheckRubric(lib, m) == Ok(r) {
      AcceptedSays(lib, m, r);
    }
    if Says(lib, m, r) && Bounds(lib, r) {
      SaidIsAccepted(lib, m, r);
    }
  }

  lemma AcceptedSays<N(!new)>(lib: Library<N>, m: Document<N>, r: Rubric<N>)
    requires CheckRubric(lib, m) == Ok(r)
    ensures Says(lib, m, r)
  {
    OriginsAreSpelled(r.source, TextAt(m, Source).value);
    CriteriaIff(lib, m[Criteria].items, r.criteria);
  }

  lemma SaidIsAccepted<N(!new)>(lib: Library<N>, m: Document<N>, r: Rubric<N>)
    requires Says(lib, m, r) && Bounds(lib, r)
    ensures CheckRubric(lib, m) == Ok(r)
  {
    OriginsAreSpelled(r.source, m[Source].scalar.s);
    CriteriaIff(lib, m[Criteria].items, r.criteria);
    ValidIffBounds(lib, r);
  }

  // ---- Written lines, letter by letter -----------------------------------------------------

  /** How an entry and the first line of an item are put together. */
  lemma LinesAreSpelled(pre: string, key: string, text: string)
    ensures KeyLine(pre, key, text) == (pre + key) + ([':', ' '] + text)
    ensures DashLine(key, text) == ([' ', ' ', '-', ' '] + key) + ([':', ' '] + text)
    ensures FOUR == [' ', ' ', ' ', ' ']
  {
    assert [':'] + ([' '] + text) == [':', ' '] + text;
    assert (pre + key) + [':'] + ([' '] + text) == (pre + key) + ([':'] + ([' '] + text));
    var inner := KeyLine("", key, text);
    assert "" + key == key;
    assert DashLine(key, text) == ([' ', ' '] + ['-', ' ']) + inner;
  }

  /** The head of a written rubric, line by line. */
  lemma HeadIsSpelled<N>(r: Rubric<N>)
    ensures var head := HeadLines(r);
            && |head| == 5 + (if r.engine.Some? then 1 else 0)
            && head[0] == KeyLine("", "version", "1") && head[1] == KeyLine("", "source", OriginText(r.source))
            && head[2] == KeyLine("", "generatedAt", r.generatedAt)
                && head[3] == KeyLine("", "planSlug", YamlScalar(r.planSlug))
            && head[4] == KeyLine("", "goal", YamlScalar(r.goal))
            && (r.engine.Some? ==> head[5] == KeyLine("", "engine", YamlScalar(r.engine.value)))
  {
    FieldsAreSpelled();
    var engine := OptionalLine("", Engine, Quoted(r.engine));
    assert HeadLines(r) == [FixedLines(r)[0], FixedLines(r)[1], FixedLines(r)[2],
        KeyLine("", NameOf(PlanSlug), YamlScalar(r.planSlug)),
      KeyLine("", NameOf(Goal), YamlScalar(r.goal))] + engine;
  }

  /** A written criterion, line by line. */
  lemma CriterionIsSpelled<N>(lib: Library<N>, c: Criterion<N>)
    ensures var lines, n := CriterionLines(lib, c), if c.weight.Some? then 3 else 2;
            && |lines| == n + (if c.evidenceHint.Some? then 1 else 0)
            && lines[0] == DashLine("id", c.id) && lines[1] == KeyLine(FOUR, "description", YamlScalar(c.description))
            && (c.weight.Some? ==> lines[2] == KeyLine(FOUR, "weight", lib.numbers.text(c.weight.value)))
            && (c.evidenceHint.Some? ==> lines[n] == KeyLine(FOUR, "evidenceHint", YamlScalar(c.evidenceHint.value)))
  {
    FieldsAreSpelled();
    var weight, hint := OptionalLine(FOUR, Weight, WeightText(lib, c)),
        OptionalLine(FOUR, EvidenceHint, Quoted(c.evidenceHint));
    assert CriterionLines(lib, c) == [DashLine(NameOf(Id), c.id),
        KeyLine(FOUR, NameOf(Description), YamlScalar(c.description))] + (weight + hint);
  }

  /** A written rubric is its head, the key of its criteria and their lines, one criterion after
      another, between two lines of three dashes, each line with a line feed. */
  lemma {:induction false} RenderedLines<N>(lib: Library<N>, r: Rubric<N>)
    ensures var lines := ["---"] + (HeadLines(r) + ["criteria:"] + CriteriaLines(lib, r.criteria)) + ["---"];
            Render(lib, r) == Join("\n", lines) + "\n"
    ensures CriteriaLines<N>(lib, []) == []
    ensures forall c, cs :: r.criteria == [c] + cs ==>
            CriteriaLines(lib, r.criteria) == CriterionLines(lib, c) + CriteriaLines(lib, cs)
  {
    assert NameOf(Criteria) + [':'] == "criteria:";
    forall c, cs | r.criteria == [c] + cs
      ensures CriteriaLines(lib, r.criteria) == CriterionLines(lib, c) + CriteriaLines(lib, cs)
    {
      assert r.criteria[1..] == cs;
    }
  }

  // ---- Line breaks and delimiters ---------------------------------------------------------

  lemma {:induction false} NormaliseSkips(a: string, b: string)
    requires '\r' !in a
    ensures NormaliseBreaks(a + b) == a + NormaliseBreaks(b)
  {
    if a == "" {
      assert a + b == b;
    } else {
      assert a[0] in a && (a + b)[1..] == a[1..] + b;
      NormaliseSkips(a[1..], b);
    }
  }

  /** A carriage return becomes a line feed, together with the line feed that follows it, if
      one does; nothing else changes. */
  lemma BreaksByPlace(a: string, b: string)
    requires '\r' !in a
    ensures NormaliseBreaks(a) == a
    ensures NormaliseBreaks(a + (['\r', '\n'] + b)) == a + (['\n'] + NormaliseBreaks(b))
    ensures b == "" || b[0] != '\n' ==> NormaliseBreaks(a + (['\r'] + b)) == a + (['\n'] + NormaliseBreaks(b))
  {
    NormaliseSkips(a, "");
    assert a + "" == a;
    NormaliseSkips(a, ['\r', '\n'] + b);
    NormaliseSkips(a, ['\r'] + b);
    assert (['\r', '\n'] + b)[2..] == b && (['\r'] + b)[1..] == b;
  }

  /** A delimiter is three dashes with nothing but white space around them. */
  lemma DelimiterIsDashes(pre: string, text: string, post: string)
    requires Blank(pre) && Blank(post) && (text == "" || Token(text))
    ensures IsDelimiter((pre + text) + post) <==> text == "---"
  {
    TrimTakesBlanks(pre, text, post);
  }

  /** Front matter is what stands between a first line that is a delimiter and the next one. */
  lemma FrontMatterIff(raw: string, body: seq<string>)
    ensures FrontMatter(raw) == Some(body) <==>
            var lines := Split('\n', NormaliseBreaks(raw));
            && |lines| >= |body| + 2 && IsDelimiter(lines[0]) && lines[1..|body| + 1] == body
            && IsDelimiter(lines[|body| + 1]) && forall i {:trigger body[i]} :: 0 <= i < |body| ==>
                !IsDelimiter(body[i])
  {
    BetweenIff(IsDelimiter, Split('\n', NormaliseBreaks(raw)), body);
  }

  lemma BetweenIff<T>(p: T -> bool, lines: seq<T>, body: seq<T>)
    requires lines != []
    ensures Between(p, lines) == Some(body) <==>
            && |lines| >= |body| + 2 && p(lines[0]) && lines[1..|body| + 1] == body
            && p(lines[|body| + 1]) && forall i {:trigger body[i]} :: 0 <= i < |body| ==> !p(body[i])
  {
    var close := FirstFrom(p, lines, 1);
    FirstFromHits(p, lines, 1);
    FirstFromMisses(p, lines, 1);
    if Between(p, lines) == Some(body) {
      assert forall i {:trigger body[i]} :: 0 <= i < |body| ==> body[i] == lines[i + 1];
    }
    if |lines| >= |body| + 2 && p(lines[0]) && lines[1..|body| + 1] == body
       && p(lines[|body| + 1]) && forall i {:trigger body[i]} :: 0 <= i < |body| ==> !p(body[i]) {
      forall j {:trigger p(lines[j])} | 1 <= j < |body| + 1 ensures !p(lines[j]) {
        assert lines[j] == body[j - 1];
      }
      FirstFromSkips(p, lines, 1, |body| + 1);
    }
  }
}
