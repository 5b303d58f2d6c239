/** Which rubrics survive being written and read back. */
module RubricRoundTrip {
  import opened Options
  import opened RubricGrammar
  import opened RubricLines
  import opened RubricScalars
  import opened Rubrics
  import opened Splitting

  // ---- What each kind of text reads as ---------------------------------------------------

  lemma ReadYaml<N>(numbers: Numbers<N>, s: string)
    ensures Token(YamlScalar(s)) && Read(numbers, YamlScalar(s)) == CoerceScalar(numbers, s)
  {
    YamlScalarIsToken(s);
    StripUndoesYamlScalar(s);
  }

  lemma ReadId<N>(numbers: Numbers<N>, s: string)
    requires CriterionId(s)
    ensures Token(s) && '\U{2028}' !in s && '\U{2029}' !in s && Read(numbers, s) == Str(s)
  {
    var digits := s[1..];
    assert forall i :: 1 <= i < |s| ==> s[i] == digits[i - 1];
    if NumberShape(s) { NumberShapeHas(s, 0); }
    CoerceKeepsPlainStrings(numbers, s);
  }

  lemma ReadDatetime<N>(numbers: Numbers<N>, s: string)
    requires DatetimeText(s)
    ensures Token(s) && Read(numbers, s) == Str(s)
  {
    var t :| 0 <= t < |s| && s[t] == 'T';
    if NumberShape(s) { NumberShapeHas(s, t); }
    CoerceKeepsPlainStrings(numbers, s);
    assert !IsSpace(s[0]) && !IsSpace(s[|s| - 1]);
    assert StripQuotes(s) == s;
    assert s != "true" && s != "false" by {
      assert "true"[0] == 't' && "false"[0] == 'f';
    }
  }

  lemma ReadNumberText<N>(numbers: Numbers<N>, s: string)
    requires NumberText(s)
    ensures Token(s) && Read(numbers, s) == CoerceScalar(numbers, s)
  {
    assert StripQuotes(s) == s;
  }

  lemma ReadOrigin<N>(numbers: Numbers<N>, o: Origin)
    ensures Token(OriginText(o)) && Read(numbers, OriginText(o)) == Str(OriginText(o))
            && OriginNamed(OriginText(o)) == Some(o)
  {
    var s := OriginText(o);
    assert s[0] == 'a' || s[0] == 'u' || s[0] == 'e';
    if NumberShape(s) { NumberShapeHas(s, 0); }
    CoerceKeepsPlainStrings(numbers, s);
    assert "true"[0] == 't' && "false"[0] == 'f';
  }

  lemma ReadVersion<N(!new)>(lib: Library<N>)
    requires Sound(lib)
    ensures Token("1") && Read(lib.numbers, "1") == Num(lib.numbers.one)
  {
    assert DigitRun("1") == 1 by { assert DigitRun("1"[1..]) == 0; }
    assert !IsoDatetime("1");
    assert |"true"| == 4 && |"false"| == 5;
  }

  // ---- What a written rubric reads as --------------------------------------------------------

  type Entry<N> = (Field, Scalar<N>)

  function OptionalEntry<N>(f: Field, value: Option<Scalar<N>>): seq<Entry<N>> {
    if value.Some? then [(f, value.value)] else []
  }

  function Coerced<N>(numbers: Numbers<N>, s: Option<string>): Option<Scalar<N>> {
    if s.Some? then Some(CoerceScalar(numbers, s.value)) else None
  }

  function CriterionBlock<N>(lib: Library<N>, c: Criterion<N>): Block<Field, Scalar<N>> {
    Block(Id, Str(c.id),
          [(Description, CoerceScalar(lib.numbers, c.description))]
          + OptionalEntry(Weight, Coerced(lib.numbers, WeightText(lib, c)))
          + OptionalEntry(EvidenceHint, Coerced(lib.numbers, c.evidenceHint)))
  }

  function CriteriaBlocks<N>(lib: Library<N>, cs: seq<Criterion<N>>): seq<Block<Field, Scalar<N>>> {
    if cs == [] then [] else [CriterionBlock(lib, cs[0])] + CriteriaBlocks(lib, cs[1..])
  }

  function FixedEntries<N>(lib: Library<N>, r: Rubric<N>): seq<Entry<N>> {
    [(Version, Num(lib.numbers.one)), (Source, Str(OriginText(r.source))), (GeneratedAt, Str(r.generatedAt))]
  }

  function HeadEntries<N>(lib: Library<N>, r: Rubric<N>): seq<Entry<N>> {
    FixedEntries(lib, r)
    + [(PlanSlug, CoerceScalar(lib.numbers, r.planSlug))]
    + [(Goal, CoerceScalar(lib.numbers, r.goal))]
    + OptionalEntry(Engine, Coerced(lib.numbers, r.engine))
  }

  lemma OneEntryMatches<N>(numbers: Numbers<N>, pre: string, f: Field, text: string, value: Scalar<N>)
    requires !f.Other? && Spaces(pre) && Token(text) && Read(numbers, text) == value
    ensures Match(RubricCutter(numbers), [KeyLine(pre, NameOf(f), text)], |pre|, [(f, value)])
  {
    FieldNames(f);
    WrittenEntry(numbers, pre, NameOf(f), text);
  }

  lemma YamlEntryMatches<N>(numbers: Numbers<N>, pre: string, f: Field, s: string)
    requires !f.Other? && Spaces(pre)
    ensures Match(RubricCutter(numbers), [KeyLine(pre, NameOf(f), YamlScalar(s))], |pre|,
            [(f, CoerceScalar(numbers, s))])
  {
    ReadYaml(numbers, s);
    OneEntryMatches(numbers, pre, f, YamlScalar(s), CoerceScalar(numbers, s));
  }

  lemma OptionalYamlMatches<N>(numbers: Numbers<N>, pre: string, f: Field, s: Option<string>)
    requires !f.Other? && Spaces(pre)
    ensures Match(RubricCutter(numbers), OptionalLine(pre, f, Quoted(s)), |pre|, OptionalEntry(f, Coerced(numbers, s)))
  {
    if s.Some? {
      YamlEntryMatches(numbers, pre, f, s.value);
    }
  }

  lemma OptionalWeightMatches<N(!new)>(lib: Library<N>, pre: string, c: Criterion<N>)
    requires Sound(lib) && ValidCriterion(lib, c) && Spaces(pre)
    ensures Match(RubricCutter(lib.numbers), OptionalLine(pre, Weight, WeightText(lib, c)), |pre|,
            OptionalEntry(Weight, Coerced(lib.numbers, WeightText(lib, c))))
  {
    if c.weight.Some? {
      var text := lib.numbers.text(c.weight.value);
      ReadNumberText(lib.numbers, text);
      OneEntryMatches(lib.numbers, pre, Weight, text, CoerceScalar(lib.numbers, text));
    }
  }

  lemma DetailsMatch<N(!new)>(lib: Library<N>, c: Criterion<N>)
    requires Sound(lib) && ValidCriterion(lib, c)
    ensures Match(RubricCutter(lib.numbers), DetailLines(lib, c), 4, CriterionBlock(lib, c).entries)
  {
    var cut := RubricCutter(lib.numbers);
    YamlEntryMatches(lib.numbers, FOUR, Description, c.description);
    OptionalWeightMatches(lib, FOUR, c);
    OptionalYamlMatches(lib.numbers, FOUR, EvidenceHint, c.evidenceHint);
    var d, w, h := [KeyLine(FOUR, NameOf(Description), YamlScalar(c.description))],
        OptionalLine(FOUR, Weight, WeightText(lib, c)),
      OptionalLine(FOUR, EvidenceHint, Quoted(c.evidenceHint));
    var x, y, z := [(Description, CoerceScalar(lib.numbers, c.description))],
        OptionalEntry(Weight, Coerced(lib.numbers, WeightText(lib, c))),
      OptionalEntry(EvidenceHint, Coerced(lib.numbers, c.evidenceHint));
    MatchAppend(cut, d, w, 4, x, y);
    MatchAppend(cut, d + w, h, 4, x + y, z);
  }

  lemma FixedMatch<N(!new)>(lib: Library<N>, r: Rubric<N>)
    requires Sound(lib) && Valid(lib, r)
    ensures Match(RubricCutter(lib.numbers), FixedLines(r), 0, FixedEntries(lib, r))
  {
    var cut := RubricCutter(lib.numbers);
    ReadVersion(lib);
    OneEntryMatches(lib.numbers, "", Version, "1", Num(lib.numbers.one));
    ReadOrigin(lib.numbers, r.source);
    OneEntryMatches(lib.numbers, "", Source, OriginText(r.source), Str(OriginText(r.source)));
    ReadDatetime(lib.numbers, r.generatedAt);
    OneEntryMatches(lib.numbers, "", GeneratedAt, r.generatedAt, Str(r.generatedAt));
    var v, s, g := KeyLine("", NameOf(Version), "1"), KeyLine("", NameOf(Source), OriginText(r.source)),
        KeyLine("", NameOf(GeneratedAt), r.generatedAt);
    MatchThree(cut, v, s, g, 0, (Version, Num(lib.numbers.one)), (Source, Str(OriginText(r.source))),
        (GeneratedAt, Str(r.generatedAt)));
  }

  lemma MatchThree<L, F, S>(cut: Cutter<L, F, S>, a: L, b: L, c: L, indent: nat, x: (F, S), y: (F, S), z: (F, S))
    requires Match(cut, [a], indent, [x]) && Match(cut, [b], indent, [y]) && Match(cut, [c], indent, [z])
    ensures Match(cut, [a, b, c], indent, [x, y, z])
  {
    MatchAppend(cut, [a], [b], indent, [x], [y]);
    MatchAppend(cut, [a] + [b], [c], indent, [x] + [y], [z]);
    assert [a] + [b] + [c] == [a, b, c] && [x] + [y] + [z] == [x, y, z];
  }

  lemma HeadMatches<N(!new)>(lib: Library<N>, r: Rubric<N>)
    requires Sound(lib) && Valid(lib, r)
    ensures Match(RubricCutter(lib.numbers), HeadLines(r), 0, HeadEntries(lib, r))
  {
    var cut := RubricCutter(lib.numbers);
    FixedMatch(lib, r);
    YamlEntryMatches(lib.numbers, "", PlanSlug, r.planSlug);
    YamlEntryMatches(lib.numbers, "", Goal, r.goal);
    OptionalYamlMatches(lib.numbers, "", Engine, r.engine);
    var f, p, g := FixedLines(r), [KeyLine("", NameOf(PlanSlug), YamlScalar(r.planSlug))],
        [KeyLine("", NameOf(Goal), YamlScalar(r.goal))];
    var x, y, z := FixedEntries(lib, r), [(PlanSlug, CoerceScalar(lib.numbers, r.planSlug))],
        [(Goal, CoerceScalar(lib.numbers, r.goal))];
    MatchAppend(cut, f, p, 0, x, y);
    MatchAppend(cut, f + p, g, 0, x + y, z);
    MatchAppend(cut, f + p + g, OptionalLine("", Engine, Quoted(r.engine)), 0, x + y + z,
        OptionalEntry(Engine, Coerced(lib.numbers, r.engine)));
  }

  lemma IdReads<N>(lib: Library<N>, c: Criterion<N>)
    requires CriterionId(c.id)
    ensures ReadsAsItem(RubricCutter(lib.numbers), DashLine(NameOf(Id), c.id), Id, Str(c.id))
  {
    FieldNames(Id);
    ReadId(lib.numbers, c.id);
    WrittenItem(lib.numbers, NameOf(Id), c.id);
  }

  lemma CriterionReads<N(!new)>(lib: Library<N>, c: Criterion<N>)
    requires Sound(lib) && ValidCriterion(lib, c)
    ensures LaidOut(RubricCutter(lib.numbers), CriterionLines(lib, c), CriterionBlock(lib, c))
  {
    IdReads(lib, c);
    DetailsMatch(lib, c);
    assert CriterionLines(lib, c)[1..] == DetailLines(lib, c);
  }

  lemma CriteriaKeyReads<N>(lib: Library<N>)
    ensures ReadsAsBlock(RubricCutter(lib.numbers), NameOf(Criteria) + [':'], Criteria)
  {
    FieldNames(Criteria);
    WrittenBlock(lib.numbers, NameOf(Criteria));
  }

  lemma {:induction false} CriteriaRead<N(!new)>(lib: Library<N>, pre: seq<string>, cs: seq<Criterion<N>>)
    requires Sound(lib) && forall i :: 0 <= i < |cs| ==> ValidCriterion(lib, cs[i])
    ensures ReadsAsBlocks(RubricCutter(lib.numbers), pre + CriteriaLines(lib, cs), |pre|, CriteriaBlocks(lib, cs))
    decreases |cs|
  {
    if cs != [] {
      CriterionReads(lib, cs[0]);
      CriteriaRead(lib, pre + CriterionLines(lib, cs[0]), cs[1..]);
      BlocksCons(RubricCutter(lib.numbers), pre, CriterionLines(lib, cs[0]), CriteriaLines(lib, cs[1..]),
                 CriterionBlock(lib, cs[0]), CriteriaBlocks(lib, cs[1..]));
    }
  }

  function DocumentOf<N>(lib: Library<N>, r: Rubric<N>): Document<N> {
    AllPlain(map[], HeadEntries(lib, r))[Criteria := Items(ItemsOf(CriteriaBlocks(lib, r.criteria)))]
  }

  lemma ListReads<N(!new)>(lib: Library<N>, head: seq<string>, line: string, r: Rubric<N>)
    requires Sound(lib) && Valid(lib, r)
    ensures ReadsAsBlocks(RubricCutter(lib.numbers), (head + [line]) + CriteriaLines(lib, r.criteria), |head| + 1,
            CriteriaBlocks(lib, r.criteria))
    ensures CriteriaBlocks(lib, r.criteria) != []
  {
    CriteriaRead(lib, head + [line], r.criteria);
  }

  /** The lines of a valid rubric read as its fields, each of them coerced. */
  lemma BodyReads<N(!new)>(lib: Library<N>, r: Rubric<N>)
    requires Sound(lib) && Valid(lib, r)
    ensures ParseTop(RubricCutter(lib.numbers), BodyLines(lib, r), 0, map[]) == Ok(DocumentOf(lib, r))
  {
    var head, line := HeadLines(r), NameOf(Criteria) + [':'];
    HeadMatches(lib, r);
    CriteriaKeyReads(lib);
    ListReads(lib, head, line, r);
    DocumentLaidOut(RubricCutter(lib.numbers), head, line, CriteriaLines(lib, r.criteria), HeadEntries(lib, r),
        Criteria, CriteriaBlocks(lib, r.criteria));
  }

  // ---- The schema on what was written ------------------------------------------------------

  /** The printed number has digits and at most a dot, and reads as the same number. */
  predicate WeightSurvives<N(==)>(lib: Library<N>, n: N) {
    NumberShape(lib.numbers.text(n)) && lib.numbers.value(lib.numbers.text(n)) == Some(n)
  }

  predicate OptionalSurvives<N>(lib: Library<N>, s: Option<string>) {
    s.Some? ==> PlainString(lib.numbers, s.value)
  }

  predicate CriterionSurvives<N(==)>(lib: Library<N>, c: Criterion<N>) {
    && PlainString(lib.numbers, c.description) && OptionalSurvives(lib, c.evidenceHint)
    && (c.weight.Some? ==> WeightSurvives(lib, c.weight.value))
  }

  predicate CriteriaSurvive<N(==)>(lib: Library<N>, cs: seq<Criterion<N>>) {
    forall i {:trigger cs[i]} :: 0 <= i < |cs| ==> CriterionSurvives(lib, cs[i])
  }

  /** No string is a boolean or a number, and every weight is printed in plain decimals. */
  predicate FieldsSurvive<N(==)>(lib: Library<N>, r: Rubric<N>) {
    && PlainString(lib.numbers, r.planSlug) && PlainString(lib.numbers, r.goal) && OptionalSurvives(lib, r.engine)
    && CriteriaSurvive(lib, r.criteria)
  }

  lemma CoerceNumberText<N>(numbers: Numbers<N>, s: string, n: N)
    requires NumberText(s)
    ensures CoerceScalar(numbers, s) == Num(n) <==> NumberShape(s) && numbers.value(s) == Some(n)
  {
    if |s| > 10 {
      assert s[10] != 'T';
    }
    assert "true"[0] == 't' && "false"[0] == 'f';
  }

  lemma CriterionItem<N>(lib: Library<N>, c: Criterion<N>)
    ensures var m := ItemOf(CriterionBlock(lib, c));
            && Id in m && m[Id] == Str(c.id)
            && Description in m && m[Description] == CoerceScalar(lib.numbers, c.description)
            && (Weight in m <==> c.weight.Some?)
                && (Weight in m ==> m[Weight] == CoerceScalar(lib.numbers, WeightText(lib, c).value))
            && (EvidenceHint in m <==> c.evidenceHint.Some?)
            && (EvidenceHint in m ==> m[EvidenceHint] == CoerceScalar(lib.numbers, c.evidenceHint.value))
  {
    var d: Entry<N> := (Description, CoerceScalar(lib.numbers, c.description));
    var entries := CriterionBlock(lib, c).entries;
    WithOptional(map[Id := Str(c.id)], d, Weight, Coerced(lib.numbers, WeightText(lib, c)), EvidenceHint,
        Coerced(lib.numbers, c.evidenceHint));
  }

  function Put<F, S>(m: map<F, S>, f: F, value: Option<S>): map<F, S> {
    if value.Some? then m[f := value.value] else m
  }

  lemma WithOptional<N>(m: map<Field, Scalar<N>>, d: Entry<N>, f: Field, v: Option<Scalar<N>>, g: Field,
      w: Option<Scalar<N>>)
    ensures WithAll(m, [d] + OptionalEntry(f, v) + OptionalEntry(g, w)) == Put(Put(m[d.0 := d.1], f, v), g, w)
  {
    WithAllAppend(m, [d] + OptionalEntry(f, v), OptionalEntry(g, w));
    WithAllAppend(m, [d], OptionalEntry(f, v));
    WithOne(m, d.0, Some(d.1));
    WithOne(m[d.0 := d.1], f, v);
    WithOne(Put(m[d.0 := d.1], f, v), g, w);
  }

  lemma WithOne<N>(m: map<Field, Scalar<N>>, f: Field, v: Option<Scalar<N>>)
    ensures WithAll(m, OptionalEntry(f, v)) == Put(m, f, v)
  {
    if v.Some? {
      var entries := OptionalEntry(f, v);
      assert entries[1..] == [];
    }
  }

  lemma {:induction false} WithAllAppend<F, S>(m: map<F, S>, a: seq<(F, S)>, b: seq<(F, S)>)
    ensures WithAll(m, a + b) == WithAll(WithAll(m, a), b)
    decreases |a|
  {
    if a == [] {
      assert a + b == b;
    } else {
      assert (a + b)[1..] == a[1..] + b;
      WithAllAppend(m[a[0].0 := a[0].1], a[1..], b);
    }
  }

  lemma CheckCriterionIff<N(!new)>(lib: Library<N>, c: Criterion<N>)
    requires Sound(lib) && ValidCriterion(lib, c)
    ensures CheckCriterion(lib, ItemOf(CriterionBlock(lib, c))) == Ok(c) <==> CriterionSurvives(lib, c)
  {
    CriterionItem(lib, c);
    CoerceKeepsPlainStrings(lib.numbers, c.description);
    if c.evidenceHint.Some? { CoerceKeepsPlainStrings(lib.numbers, c.evidenceHint.value); }
    if c.weight.Some? { CoerceNumberText(lib.numbers, lib.numbers.text(c.weight.value), c.weight.value); }
  }

  lemma CheckCons<N(!new)>(lib: Library<N>, items: seq<Item<Field, Scalar<N>>>, cs: seq<Criterion<N>>)
    requires items != [] && cs != []
    ensures CheckCriteria(lib, items) == Ok(cs) <==>
            CheckCriterion(lib, items[0]) == Ok(cs[0]) && CheckCriteria(lib, items[1..]) == Ok(cs[1..])
  {
    var first, rest := CheckCriterion(lib, items[0]), CheckCriteria(lib, items[1..]);
    assert cs == [cs[0]] + cs[1..];
    if first.Ok? && rest.Ok? {
      assert ([first.value] + rest.value)[0] == first.value && ([first.value] + rest.value)[1..] == rest.value;
    }
  }

  lemma {:induction false} CheckCriteriaIff<N(!new)>(lib: Library<N>, cs: seq<Criterion<N>>)
    requires Sound(lib) && forall i :: 0 <= i < |cs| ==> ValidCriterion(lib, cs[i])
    ensures CheckCriteria(lib, ItemsOf(CriteriaBlocks(lib, cs))) == Ok(cs) <==> CriteriaSurvive(lib, cs)
    decreases |cs|
  {
    if cs != [] {
      CheckCriterionIff(lib, cs[0]);
      CheckCriteriaIff(lib, cs[1..]);
      var items := ItemsOf(CriteriaBlocks(lib, cs));
      assert items[0] == ItemOf(CriterionBlock(lib, cs[0])) && items[1..] == ItemsOf(CriteriaBlocks(lib, cs[1..]));
      CheckCons(lib, items, cs);
      SurviveSplit(lib, cs);
    }
  }

  lemma SurviveSplit<N>(lib: Library<N>, cs: seq<Criterion<N>>)
    requires cs != []
    ensures CriteriaSurvive(lib, cs) <==> CriterionSurvives(lib, cs[0]) && CriteriaSurvive(lib, cs[1..])
  {
    var rest := cs[1..];
    assert forall i {:trigger rest[i]} :: 0 <= i < |rest| ==> rest[i] == cs[i + 1];
    if CriterionSurvives(lib, cs[0]) && CriteriaSurvive(lib, rest) {
      forall i | 0 <= i < |cs| ensures CriterionSurvives(lib, cs[i]) {
        assert i > 0 ==> cs[i] == rest[i - 1];
      }
    }
  }

  lemma {:induction false} AllPlainAppend<F, S>(m: map<F, Value<F, S>>, a: seq<(F, S)>, b: seq<(F, S)>)
    ensures AllPlain(m, a + b) == AllPlain(AllPlain(m, a), b)
    decreases |a|
  {
    if a == [] {
      assert a + b == b;
    } else {
      assert (a + b)[1..] == a[1..] + b;
      AllPlainAppend(m[a[0].0 := Plain(a[0].1)], a[1..], b);
    }
  }

  lemma AllPlainOne<F, S>(m: map<F, Value<F, S>>, f: F, v: S)
    ensures AllPlain(m, [(f, v)]) == m[f := Plain(v)]
  {
    assert [(f, v)][1..] == [];
  }

  lemma AllPlainThree<F, S>(m: map<F, Value<F, S>>, f: F, v: S, g: F, w: S, h: F, x: S)
    ensures AllPlain(m, [(f, v), (g, w), (h, x)]) == m[f := Plain(v)][g := Plain(w)][h := Plain(x)]
  {
    assert [(f, v), (g, w), (h, x)] == [(f, v)] + [(g, w)] + [(h, x)];
    AllPlainAppend(m, [(f, v)] + [(g, w)], [(h, x)]);
    AllPlainAppend(m, [(f, v)], [(g, w)]);
    AllPlainOne(m, f, v);
    AllPlainOne(m[f := Plain(v)], g, w);
    AllPlainOne(m[f := Plain(v)][g := Plain(w)], h, x);
  }

  lemma AllPlainOptional<N>(m: Document<N>, f: Field, v: Option<Scalar<N>>)
    ensures AllPlain(m, OptionalEntry(f, v)) == if v.Some? then m[f := Plain(v.value)] else m
  {
    if v.Some? {
      AllPlainOne(m, f, v.value);
    }
  }

  function FixedDocument<N>(lib: Library<N>, r: Rubric<N>): Document<N> {
    map[][Version := Plain(Num(lib.numbers.one))]
      [Source := Plain(Str(OriginText(r.source)))][GeneratedAt := Plain(Str(r.generatedAt))]
  }

  function HeadDocument<N>(lib: Library<N>, r: Rubric<N>): Document<N> {
    FixedDocument(lib, r)[PlanSlug := Plain(CoerceScalar(lib.numbers,
        r.planSlug))][Goal := Plain(CoerceScalar(lib.numbers, r.goal))]
  }

  lemma HeadIsDocument<N>(lib: Library<N>, r: Rubric<N>)
    ensures AllPlain(map[], HeadEntries(lib, r)) ==
            if r.engine.Some? then HeadDocument(lib, r)[Engine := Plain(CoerceScalar(lib.numbers, r.engine.value))]
                else HeadDocument(lib, r)
  {
    var fixed, p, g, e := FixedEntries(lib, r), [(PlanSlug, CoerceScalar(lib.numbers, r.planSlug))],
        [(Goal, CoerceScalar(lib.numbers, r.goal))],
      OptionalEntry(Engine, Coerced(lib.numbers, r.engine));
    AllPlainAppend(map[], fixed + p + g, e);
    AllPlainAppend(map[], fixed + p, g);
    AllPlainAppend(map[], fixed, p);
    AllPlainThree(map[], Version, Num(lib.numbers.one), Source, Str(OriginText(r.source)), GeneratedAt,
        Str(r.generatedAt));
    AllPlainOne(FixedDocument(lib, r), PlanSlug, CoerceScalar(lib.numbers, r.planSlug));
    AllPlainOne(FixedDocument(lib, r)[PlanSlug := Plain(CoerceScalar(lib.numbers, r.planSlug))], Goal,
        CoerceScalar(lib.numbers, r.goal));
    AllPlainOptional(HeadDocument(lib, r), Engine, Coerced(lib.numbers, r.engine));
  }

  /** A field that holds a string as it was, or else no string at all. */
  ghost predicate HoldsText<N>(lib: Library<N>, m: Document<N>, f: Field, s: string) {
    f in m && m[f].Plain? && TextAt(m, f) == if PlainString(lib.numbers, s) then Some(s) else None
  }

  /** A document with the fields of a rubric, each coerced. */
  ghost predicate Holds<N>(lib: Library<N>, m: Document<N>, r: Rubric<N>) {
    && Version in m && m[Version] == Plain(Num(lib.numbers.one))
    && TextAt(m, Source) == Some(OriginText(r.source)) && TextAt(m, GeneratedAt) == Some(r.generatedAt)
    && HoldsText(lib, m, PlanSlug, r.planSlug) && HoldsText(lib, m, Goal, r.goal)
    && (if r.engine.Some? then HoldsText(lib, m, Engine, r.engine.value) else Engine !in m)
    && Criteria in m && m[Criteria] == Items(ItemsOf(CriteriaBlocks(lib, r.criteria)))
  }

  lemma CoercedText<N>(lib: Library<N>, m: Document<N>, f: Field, s: string)
    requires f in m && m[f] == Plain(CoerceScalar(lib.numbers, s))
    ensures HoldsText(lib, m, f, s)
  {
    CoerceKeepsPlainStrings(lib.numbers, s);
  }

  lemma DocumentHolds<N>(lib: Library<N>, r: Rubric<N>)
    ensures Holds(lib, DocumentOf(lib, r), r)
  {
    HeadIsDocument(lib, r);
    var m := DocumentOf(lib, r);
    CoercedText(lib, m, PlanSlug, r.planSlug);
    CoercedText(lib, m, Goal, r.goal);
    if r.engine.Some? { CoercedText(lib, m, Engine, r.engine.value); }
  }

  lemma CheckWhatHolds<N(!new)>(lib: Library<N>, m: Document<N>, r: Rubric<N>)
    requires Valid(lib, r) && Holds(lib, m, r)
    requires OriginNamed(OriginText(r.source)) == Some(r.source)
    requires CheckCriteria(lib, ItemsOf(CriteriaBlocks(lib, r.criteria))) == Ok(r.criteria) <==>
             CriteriaSurvive(lib, r.criteria)
    ensures CheckRubric(lib, m) == Ok(r) <==> FieldsSurvive(lib, r)
  {
  }

  /** The schema accepts what was read of a written rubric, as the same rubric, exactly
      when no coercion has changed a field. */
  lemma CheckRubricIff<N(!new)>(lib: Library<N>, r: Rubric<N>)
    requires Sound(lib) && Valid(lib, r)
    ensures CheckRubric(lib, DocumentOf(lib, r)) == Ok(r) <==> FieldsSurvive(lib, r)
  {
    DocumentHolds(lib, r);
    ReadOrigin(lib.numbers, r.source);
    CheckCriteriaIff(lib, r.criteria);
    CheckWhatHolds(lib, DocumentOf(lib, r), r);
  }

  // ---- The text as a whole -----------------------------------------------------------------

  /** A line of its own that is no delimiter. */
  predicate BodyLine(line: string) {
    OneLine(line) && exists i :: 0 <= i < |line| && IsLetter(line[i])
  }

  predicate BodyLinesOnly(lines: seq<string>) {
    forall i {:trigger lines[i]} :: 0 <= i < |lines| ==> BodyLine(lines[i])
  }

  predicate OptionalOneLine(s: Option<string>) {
    s.Some? ==> OneLine(s.value)
  }

  /** No string of the rubric has a line break. */
  predicate OneLineFields<N>(r: Rubric<N>) {
    && OneLine(r.planSlug) && OneLine(r.goal) && OptionalOneLine(r.engine)
    && forall i {:trigger r.criteria[i]} :: 0 <= i < |r.criteria| ==>
        OneLine(r.criteria[i].description) && OptionalOneLine(r.criteria[i].evidenceHint)
  }

  lemma KeyLineIsBody(pre: string, f: Field, text: string)
    requires !f.Other? && Spaces(pre) && OneLine(text)
    ensures BodyLine(KeyLine(pre, NameOf(f), text))
  {
    FieldNames(f);
    KeyLineBreaks(pre, NameOf(f), text);
  }

  lemma KeyLineBreaks(pre: string, key: string, text: string)
    requires IsName(key) && Spaces(pre) && OneLine(text)
    ensures BodyLine(KeyLine(pre, key, text))
  {
    var line := KeyLine(pre, key, text);
    assert line[|pre|] == key[0];
    forall c | c == '\r' || c == '\n' ensures c !in line {
      assert c !in pre + key && c !in [' '] + text && c != ':';
    }
  }

  lemma OptionalLineIsBody(pre: string, f: Field, text: Option<string>)
    requires !f.Other? && Spaces(pre) && OptionalOneLine(text)
    ensures BodyLinesOnly(OptionalLine(pre, f, text))
  {
    if text.Some? { KeyLineIsBody(pre, f, text.value); }
  }

  lemma QuotedIsOneLine(s: Option<string>)
    requires OptionalOneLine(s)
    ensures OptionalOneLine(Quoted(s))
  {
    if s.Some? { YamlScalarKeepsLines(s.value); }
  }

  lemma DashLineIsBody(s: string)
    requires CriterionId(s)
    ensures BodyLine(DashLine(NameOf(Id), s))
  {
    FieldNames(Id);
    var digits := s[1..];
    assert forall i :: 1 <= i < |s| ==> s[i] == digits[i - 1];
    DashLineBreaks(NameOf(Id), s);
  }

  lemma DashLineBreaks(key: string, text: string)
    requires IsName(key) && OneLine(text)
    ensures BodyLine(DashLine(key, text))
  {
    KeyLineBreaks("", key, text);
    var inner, line := KeyLine("", key, text), DashLine(key, text);
    var i :| 0 <= i < |inner| && IsLetter(inner[i]);
    assert line[i + 4] == inner[i];
    forall c | c == '\r' || c == '\n' ensures c !in line {
      assert c !in ['-', ' '] + inner;
    }
  }

  lemma CriterionLinesAreBody<N(!new)>(lib: Library<N>, c: Criterion<N>)
    requires Sound(lib) && ValidCriterion(lib, c) && OneLine(c.description) && OptionalOneLine(c.evidenceHint)
    ensures BodyLinesOnly(CriterionLines(lib, c))
  {
    DashLineIsBody(c.id);
    YamlScalarKeepsLines(c.description);
    KeyLineIsBody(FOUR, Description, YamlScalar(c.description));
    if c.weight.Some? { NumberTextIsOneLine(lib.numbers.text(c.weight.value)); }
    OptionalLineIsBody(FOUR, Weight, WeightText(lib, c));
    QuotedIsOneLine(c.evidenceHint);
    OptionalLineIsBody(FOUR, EvidenceHint, Quoted(c.evidenceHint));
  }

  lemma NumberTextIsOneLine(s: string)
    requires NumberText(s)
    ensures OneLine(s)
  {
  }

  lemma {:induction false} CriteriaLinesAreBody<N(!new)>(lib: Library<N>, cs: seq<Criterion<N>>)
    requires Sound(lib) && forall i :: 0 <= i < |cs| ==> ValidCriterion(lib, cs[i])
    requires forall i {:trigger cs[i]} :: 0 <= i < |cs| ==>
             OneLine(cs[i].description) && OptionalOneLine(cs[i].evidenceHint)
    ensures BodyLinesOnly(CriteriaLines(lib, cs))
    decreases |cs|
  {
    if cs != [] {
      CriterionLinesAreBody(lib, cs[0]);
      CriteriaLinesAreBody(lib, cs[1..]);
      BodyAppend(CriterionLines(lib, cs[0]), CriteriaLines(lib, cs[1..]));
    }
  }

  lemma BodyAppend(a: seq<string>, b: seq<string>)
    requires BodyLinesOnly(a) && BodyLinesOnly(b)
    ensures BodyLinesOnly(a + b)
  {
  }

  lemma FixedLinesAreBody<N(!new)>(lib: Library<N>, r: Rubric<N>)
    requires Sound(lib) && Valid(lib, r)
    ensures BodyLinesOnly(FixedLines(r))
  {
    KeyLineIsBody("", Version, "1");
    assert OneLine(OriginText(r.source));
    KeyLineIsBody("", Source, OriginText(r.source));
    assert DatetimeText(r.generatedAt);
    KeyLineIsBody("", GeneratedAt, r.generatedAt);
  }

  lemma HeadLinesAreBody<N(!new)>(lib: Library<N>, r: Rubric<N>)
    requires Sound(lib) && Valid(lib, r) && OneLineFields(r)
    ensures BodyLinesOnly(HeadLines(r))
  {
    FixedLinesAreBody(lib, r);
    var p, g, e := [KeyLine("", NameOf(PlanSlug), YamlScalar(r.planSlug))],
        [KeyLine("", NameOf(Goal), YamlScalar(r.goal))],
      OptionalLine("", Engine, Quoted(r.engine));
    YamlLineIsBody(PlanSlug, r.planSlug);
    YamlLineIsBody(Goal, r.goal);
    QuotedIsOneLine(r.engine);
    OptionalLineIsBody("", Engine, Quoted(r.engine));
    BodyAppend(FixedLines(r), p);
    BodyAppend(FixedLines(r) + p, g);
    BodyAppend(FixedLines(r) + p + g, e);
  }

  lemma YamlLineIsBody(f: Field, s: string)
    requires !f.Other? && OneLine(s)
    ensures BodyLinesOnly([KeyLine("", NameOf(f), YamlScalar(s))])
  {
    YamlScalarKeepsLines(s);
    KeyLineIsBody("", f, YamlScalar(s));
  }

  lemma CriteriaKeyIsBody()
    ensures BodyLine(NameOf(Criteria) + [':'])
  {
    FieldNames(Criteria);
    var line := NameOf(Criteria) + [':'];
    assert line[0] == NameOf(Criteria)[0] && IsLetter(line[0]);
  }

  lemma BodyLinesAreBody<N(!new)>(lib: Library<N>, r: Rubric<N>)
    requires Sound(lib) && Valid(lib, r) && OneLineFields(r)
    ensures BodyLinesOnly(BodyLines(lib, r))
  {
    HeadLinesAreBody(lib, r);
    CriteriaKeyIsBody();
    CriteriaLinesAreBody(lib, r.criteria);
    BodyAppend(HeadLines(r), [NameOf(Criteria) + [':']]);
    BodyAppend(HeadLines(r) + [NameOf(Criteria) + [':']], CriteriaLines(lib, r.criteria));
  }

  lemma {:induction false} NormaliseKeeps(s: string)
    requires '\r' !in s
    ensures NormaliseBreaks(s) == s
  {
    if s != "" {
      NormaliseKeeps(s[1..]);
      assert s == [s[0]] + s[1..];
    }
  }

  lemma TrimKeeps(s: string, i: nat)
    requires i < |s| && !IsSpace(s[i])
    ensures s[i] in Trim(s)
  {
    var t := TrimStart(s);
    var k := |s| - |t|;
    assert i >= k && t[i - k] == s[i];
    TrimEndKeeps(t, i - k);
  }

  lemma {:induction false} TrimEndKeeps(t: string, i: nat)
    requires i < |t| && !IsSpace(t[i])
    ensures i < |TrimEnd(t)| && TrimEnd(t)[i] == t[i]
  {
    if IsSpace(t[|t| - 1]) {
      TrimEndKeeps(t[..|t| - 1], i);
    }
  }

  lemma BodyIsNoDelimiter(line: string)
    requires BodyLine(line)
    ensures !IsDelimiter(line)
  {
    var i :| 0 <= i < |line| && IsLetter(line[i]);
    TrimKeeps(line, i);
    assert forall c :: c in DELIMITER ==> c == '-';
  }

  lemma DelimiterIsOneLine()
    ensures OneLine(DELIMITER) && IsDelimiter(DELIMITER)
  {
  }

  lemma Middle<T>(first: T, body: seq<T>, last: T, rest: seq<T>)
    ensures ([first] + body + [last] + rest)[1..|body| + 1] == body && ([first] + body + [last] + rest)[0] == first
    ensures |[first] + body + [last] + rest| > |body| + 1
  {
  }

  lemma WrittenIsOneLine(body: seq<string>)
    requires BodyLinesOnly(body)
    ensures var written := [DELIMITER] + body + [DELIMITER];
            forall i :: 0 <= i < |written| ==> '\r' !in written[i] && '\n' !in written[i]
  {
    DelimiterIsOneLine();
    var written := [DELIMITER] + body + [DELIMITER];
    forall i | 0 <= i < |written| ensures OneLine(written[i]) {
      assert 1 <= i <= |body| ==> written[i] == body[i - 1];
    }
  }

  lemma LinesOfWritten(body: seq<string>)
    requires BodyLinesOnly(body)
    ensures var text := Join(['\n'], [DELIMITER] + body + [DELIMITER]) + ['\n'];
            Split('\n', NormaliseBreaks(text)) == [DELIMITER] + body + [DELIMITER] + [[]]
  {
    var written := [DELIMITER] + body + [DELIMITER];
    WrittenIsOneLine(body);
    JoinHasNo('\r', '\n', written);
    NormaliseKeeps(Join(['\n'], written) + ['\n']);
    SplitOfWritten('\n', written);
  }

  /** The front matter of a written text is the lines that were written. */
  lemma FrontMatterOfLines(body: seq<string>)
    requires BodyLinesOnly(body)
    ensures FrontMatter(Join(['\n'], [DELIMITER] + body + [DELIMITER]) + ['\n']) == Some(body)
  {
    LinesOfWritten(body);
    DelimiterIsOneLine();
    forall j | 0 <= j < |body| ensures !IsDelimiter(body[j]) {
      BodyIsNoDelimiter(body[j]);
    }
    FirstAfterBody(IsDelimiter, DELIMITER, body, DELIMITER, [[]]);
    Middle(DELIMITER, body, DELIMITER, [[]]);
  }

  lemma SplitOfWritten<T>(sep: T, written: seq<seq<T>>)
    requires written != [] && forall i :: 0 <= i < |written| ==> sep !in written[i]
    ensures Split(sep, Join([sep], written) + [sep]) == written + [[]]
  {
    JoinAppend(sep, written, [[]]);
    SplitUndoesJoin(sep, written + [[]]);
    assert Join([sep], written) + [sep] + [] == Join([sep], written) + [sep];
  }

  // ---- Whatever is parsed ---------------------------------------------------------------------

  /** A string on one line that no reading turns into something else. */
  predicate CleanText<N>(numbers: Numbers<N>, s: string) {
    OneLine(s) && PlainString(numbers, s)
  }

  predicate CleanScalar<N>(numbers: Numbers<N>, v: Scalar<N>) {
    v.Str? ==> CleanText(numbers, v.s)
  }

  lemma ReadIsClean<N>(numbers: Numbers<N>, s: string)
    requires OneLine(s)
    ensures CleanScalar(numbers, Read(numbers, s))
  {
    StripKeepsLines(s);
    CoerceKeepsPlainStrings(numbers, StripQuotes(s));
  }

  lemma EntryIsClean<N>(numbers: Numbers<N>, line: string)
    requires OneLine(line)
    ensures var entry := EntryOf(numbers, line); entry.Some? ==> CleanScalar(numbers, entry.value.1)
  {
    if ':' in line {
      var after := line[IndexOf(line, ':') + 1..];
      assert OneLine(after) && OneLine(TrimStart(after)) && OneLine(Trim(after));
      ReadIsClean(numbers, TextAfterColon(line));
    }
  }

  lemma FirstIsClean<N>(numbers: Numbers<N>, line: string)
    requires OneLine(line)
    ensures var first := FirstOf(numbers, line);
            first.Some? ==> forall f {:trigger first.value[f]} :: f in first.value ==>
                CleanScalar(numbers, first.value[f])
  {
    var inline := AfterDash(line);
    if inline.Some? {
      var after := line[Indent(line) + 1..];
      assert OneLine(after) && OneLine(inline.value);
      EntryIsClean(numbers, inline.value);
      ReadIsClean(numbers, inline.value);
    }
  }

  lemma LinesAreClean<N(!new)>(numbers: Numbers<N>, lines: seq<string>, good: Scalar<N> -> bool)
    requires OneLiners(lines)
    requires forall v {:trigger good(v)} :: good(v) == CleanScalar(numbers, v)
    ensures LinesGive(RubricCutter(numbers), lines, good)
  {
    forall i | 0 <= i < |lines|
      ensures EntryOf(numbers, lines[i]).Some? ==> good(EntryOf(numbers, lines[i]).value.1)
      ensures FirstOf(numbers, lines[i]).Some? ==> GoodItem(FirstOf(numbers, lines[i]).value, good)
    {
      EntryIsClean(numbers, lines[i]);
      FirstIsClean(numbers, lines[i]);
    }
  }

  predicate OneLiners(lines: seq<string>) {
    forall i {:trigger lines[i]} :: 0 <= i < |lines| ==> OneLine(lines[i])
  }

  lemma LinesAreOneLiners(raw: string)
    ensures OneLiners(Split('\n', NormaliseBreaks(raw)))
  {
    SplitHasNoSeparator('\n', NormaliseBreaks(raw));
    SplitKeepsElements('\n', NormaliseBreaks(raw), '\r');
  }

  lemma BetweenKeeps<T>(p: T -> bool, s: seq<T>, good: T -> bool)
    requires s != [] && forall i {:trigger s[i]} :: 0 <= i < |s| ==> good(s[i])
    ensures var b := Between(p, s); b.Some? ==> forall i {:trigger b.value[i]} :: 0 <= i < |b.value| ==>
            good(b.value[i])
  {
  }

  lemma FrontMatterIsOneLine(raw: string)
    ensures var lines := FrontMatter(raw); lines.Some? ==> OneLiners(lines.value)
  {
    LinesAreOneLiners(raw);
    BetweenKeeps(IsDelimiter, Split('\n', NormaliseBreaks(raw)), OneLine);
  }

  /** Every string of the rubric is clean. */
  predicate CleanRubric<N>(numbers: Numbers<N>, r: Rubric<N>) {
    && CleanText(numbers, r.planSlug) && CleanText(numbers, r.goal)
        && (r.engine.Some? ==> CleanText(numbers, r.engine.value))
    && CleanCriteria(numbers, r.criteria)
  }

  predicate CleanCriteria<N>(numbers: Numbers<N>, cs: seq<Criterion<N>>) {
    forall i {:trigger cs[i]} :: 0 <= i < |cs| ==>
      CleanText(numbers, cs[i].description)
          && (cs[i].evidenceHint.Some? ==> CleanText(numbers, cs[i].evidenceHint.value))
  }

  lemma {:induction false} CheckedCriteriaAreClean<N(!new)>(lib: Library<N>, items: seq<Item<Field, Scalar<N>>>,
      good: Scalar<N> -> bool)
    requires forall v {:trigger good(v)} :: good(v) == CleanScalar(lib.numbers, v)
    requires GoodItems(items, good)
    ensures var r := CheckCriteria(lib, items); r.Ok? ==> CleanCriteria(lib.numbers, r.value)
  {
    if items != [] && CheckCriteria(lib, items).Ok? {
      var m := items[0];
      assert GoodItem(m, good);
      assert good(m[Description]);
      assert EvidenceHint in m ==> good(m[EvidenceHint]);
      CheckedCriteriaAreClean(lib, items[1..], good);
    }
  }

  lemma CheckedIsClean<N(!new)>(lib: Library<N>, m: Document<N>, good: Scalar<N> -> bool)
    requires forall v {:trigger good(v)} :: good(v) == CleanScalar(lib.numbers, v)
    requires GoodDocument(m, good)
    ensures var r := CheckRubric(lib, m); r.Ok? ==> CleanRubric(lib.numbers, r.value)
  {
    if CheckRubric(lib, m).Ok? {
      assert GoodValue(m[PlanSlug], good) && GoodValue(m[Goal], good) && GoodValue(m[Criteria], good);
      assert Engine in m ==> GoodValue(m[Engine], good);
      CheckedCriteriaAreClean(lib, m[Criteria].items, good);
    }
  }

  /** No text at all reads as a rubric with a line break in a string, or with a string of
      boolean or number shape. */
  lemma ParsedRubricsAreClean<N(!new)>(lib: Library<N>, raw: string)
    ensures var r := Parse(lib, raw); r.Ok? ==> Valid(lib, r.value) && CleanRubric(lib.numbers, r.value)
  {
    var lines := FrontMatter(raw);
    if lines.Some? {
      var good := v => CleanScalar(lib.numbers, v);
      FrontMatterIsOneLine(raw);
      LinesAreClean(lib.numbers, lines.value, good);
      DocumentIsGood(RubricCutter(lib.numbers), lines.value, 0, map[], good);
      var document := ParseTop(RubricCutter(lib.numbers), lines.value, 0, map[]);
      if document.Ok? {
        CheckedIsClean(lib, document.value, good);
      }
    }
  }

  // ---- Main results -----------------------------------------------------------------------------

  lemma ParseOfRendered<N(!new)>(lib: Library<N>, r: Rubric<N>)
    requires Sound(lib) && Valid(lib, r) && OneLineFields(r)
    ensures Parse(lib, Render(lib, r)) == CheckRubric(lib, DocumentOf(lib, r))
  {
    BodyLinesAreBody(lib, r);
    FrontMatterOfLines(BodyLines(lib, r));
    BodyReads(lib, r);
  }

  lemma BreaksAreLost<N(!new)>(lib: Library<N>, raw: string, r: Rubric<N>)
    requires !OneLineFields(r)
    ensures Parse(lib, raw) != Ok(r)
  {
    ParsedRubricsAreClean(lib, raw);
  }

  /** Writing a valid rubric and reading it back gives the same rubric, if and only if no
      string has a line break or the shape of a boolean or of a number in range, and every
      weight is printed in plain decimals that read back as the same number. */
  lemma RoundTripIff<N(!new)>(lib: Library<N>, r: Rubric<N>)
    requires Sound(lib) && Valid(lib, r)
    ensures Parse(lib, Render(lib, r)) == Ok(r) <==> OneLineFields(r) && FieldsSurvive(lib, r)
  {
    if OneLineFields(r) {
      ParseOfRendered(lib, r);
      CheckRubricIff(lib, r);
    } else {
      BreaksAreLost(lib, Render(lib, r), r);
    }
  }

  /** Line breaks of any kind read alike: a text and its normalised form give one rubric. */
  lemma BreaksReadAlike<N>(lib: Library<N>, raw: string)
    ensures Parse(lib, NormaliseBreaks(raw)) == Parse(lib, raw)
  {
    NormaliseKeeps(NormaliseBreaks(raw));
  }

  predicate WeightsSurvive<N(==)>(lib: Library<N>, r: Rubric<N>) {
    forall i {:trigger r.criteria[i]} :: 0 <= i < |r.criteria| && r.criteria[i].weight.Some? ==>
        WeightSurvives(lib, r.criteria[i].weight.value)
  }

  /** Whatever text a rubric was read from, writing and reading it once more changes
      nothing, if and only if its weights are printed in plain decimals. */
  lemma ParseRenderParse<N(!new)>(lib: Library<N>, raw: string)
    requires Sound(lib)
    ensures var r := Parse(lib, raw);
            r.Ok? ==> (Parse(lib, Render(lib, r.value)) == r <==> WeightsSurvive(lib, r.value))
  {
    ParsedRubricsAreClean(lib, raw);
    var r := Parse(lib, raw);
    if r.Ok? {
      RoundTripIff(lib, r.value);
      CleanSurvivesIff(lib, r.value);
    }
  }

  lemma CleanSurvivesIff<N(!new)>(lib: Library<N>, r: Rubric<N>)
    requires CleanRubric(lib.numbers, r)
    ensures OneLineFields(r) && FieldsSurvive(lib, r) <==> WeightsSurvive(lib, r)
  {
    if WeightsSurvive(lib, r) {
      forall i | 0 <= i < |r.criteria| ensures CriterionSurvives(lib, r.criteria[i]) {
        assert r.criteria[i].weight.Some? ==> WeightSurvives(lib, r.criteria[i].weight.value);
      }
    }
    if FieldsSurvive(lib, r) {
      forall i | 0 <= i < |r.criteria|
          && r.criteria[i].weight.Some? ensures WeightSurvives(lib, r.criteria[i].weight.value) {
        assert CriterionSurvives(lib, r.criteria[i]);
      }
    }
  }

  /** A weight that is printed with an exponent, as all those below one millionth are, does
      not survive. */
  lemma ExponentLosesWeight<N(!new)>(lib: Library<N>, r: Rubric<N>, i: nat)
    requires Sound(lib) && Valid(lib, r) && i < |r.criteria| && r.criteria[i].weight.Some?
    requires 'e' in lib.numbers.text(r.criteria[i].weight.value)
    ensures Parse(lib, Render(lib, r)) != Ok(r)
  {
    RoundTripIff(lib, r);
    var text := lib.numbers.text(r.criteria[i].weight.value);
    var k :| 0 <= k < |text| && text[k] == 'e';
    if NumberShape(text) { NumberShapeHas(text, k); }
    if FieldsSurvive(lib, r) {
      assert CriterionSurvives(lib, r.criteria[i]);
    }
  }
}
