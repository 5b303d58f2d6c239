/** Rubrics: their schema, how they are written as front matter, and reading them back. */
module Rubrics {
  import opened Options
  import opened RubricGrammar
  import opened RubricLines
  import opened RubricScalars
  import opened Splitting

  datatype Origin = Auto | User | Edited

  datatype Criterion<N> = Criterion(id: string, description: string, weight: Option<N>, evidenceHint: Option<string>)

  datatype Rubric<N> = Rubric(
    source: Origin,
    generatedAt: string,
    planSlug: string,
    goal: string,
    engine: Option<string>,
    criteria: seq<Criterion<N>>)

  /** What the schema takes from its library: numbers, and the test for a date and time. */
  datatype Library<!N> = Library(numbers: Numbers<N>, datetime: string -> bool)

  predicate NumberText(s: string) {
    s != "" && forall i :: 0 <= i < |s| ==> IsDigit(s[i]) || s[i] == '.' || s[i] == 'e' || s[i] == '+' || s[i] == '-'
  }

  predicate DatetimeText(s: string) {
    && s != "" && 'T' in s
    && forall i :: 0 <= i < |s| ==>
        IsDigit(s[i]) || s[i] == '-' || s[i] == ':' || s[i] == '.' || s[i] == 'T' || s[i] == 'Z'
  }

  /** Numbers print with digits, a dot and an exponent; dates have nothing but digits and
      their marks; and the number one is written as such. */
  ghost predicate Sound<N(!new)>(lib: Library<N>) {
    && lib.numbers.value("1") == Some(lib.numbers.one)
    && (forall n {:trigger lib.numbers.text(n)} :: lib.numbers.inUnit(n) ==> NumberText(lib.numbers.text(n)))
    && (forall s {:trigger lib.datetime(s)} :: lib.datetime(s) ==> DatetimeText(s))
  }

  function OriginText(o: Origin): string {
    match o
    case Auto => "auto"
    case User => "user"
    case Edited => "edited"
  }

  function OriginNamed(s: string): Option<Origin> {
    if s == "auto" then Some(Auto) else if s == "user" then Some(User) else if s == "edited" then Some(Edited) else None
  }

  /** The length in UTF-16 code units. */
  function Units(s: string): nat {
    if s == "" then 0 else (if s[0] as int >= 0x1_0000 then 2 else 1) + Units(s[1..])
  }

  predicate CriterionId(s: string) {
    s != "" && s[0] == 'c' && AllDigits(s[1..])
  }

  predicate ValidCriterion<N>(lib: Library<N>, c: Criterion<N>) {
    CriterionId(c.id) && Units(c.description) >= 10 && (c.weight.Some? ==> lib.numbers.inUnit(c.weight.value))
  }

  predicate Valid<N>(lib: Library<N>, r: Rubric<N>) {
    && lib.datetime(r.generatedAt) && r.planSlug != "" && r.goal != "" && 3 <= |r.criteria| <= 15
    && forall i :: 0 <= i < |r.criteria| ==> ValidCriterion(lib, r.criteria[i])
  }

  // ---- The schema on what was parsed -------------------------------------------------------

  type Document<N> = map<Field, Value<Field, Scalar<N>>>

  function TextAt<N>(m: Document<N>, f: Field): Option<string> {
    if f in m && m[f].Plain? && m[f].scalar.Str? then Some(m[f].scalar.s) else None
  }

  function ItemTextAt<N>(m: Item<Field, Scalar<N>>, f: Field): Option<string> {
    if f in m && m[f].Str? then Some(m[f].s) else None
  }

  function CheckCriterion<N>(lib: Library<N>, m: Item<Field, Scalar<N>>): Result<Criterion<N>> {
    var id, description := ItemTextAt(m, Id), ItemTextAt(m, Description);
    if id.None? || description.None? || (Weight in m && !m[Weight].Num?)
        || (EvidenceHint in m && !m[EvidenceHint].Str?) then Error
    else
      var c := Criterion(id.value, description.value, if Weight in m then Some(m[Weight].n)
          else None, ItemTextAt(m, EvidenceHint));
      if ValidCriterion(lib, c) then Ok(c) else Error
  }

  function CheckCriteria<N>(lib: Library<N>, items: seq<Item<Field, Scalar<N>>>): Result<seq<Criterion<N>>> {
    if items == [] then Ok([])
    else
      var first, rest := CheckCriterion(lib, items[0]), CheckCriteria(lib, items[1..]);
      if first.Ok? && rest.Ok? then Ok([first.value] + rest.value) else Error
  }

  function CheckRubric<N(==)>(lib: Library<N>, m: Document<N>): Result<Rubric<N>> {
    var source, generatedAt, planSlug, goal := TextAt(m, Source), TextAt(m, GeneratedAt), TextAt(m, PlanSlug),
        TextAt(m, Goal);
    if Version !in m || m[Version] != Plain(Num(lib.numbers.one)) then Error
    else if source.None? || OriginNamed(source.value).None? || generatedAt.None? || planSlug.None?
        || goal.None? then Error
    else if (Engine in m && TextAt(m, Engine).None?) || Criteria !in m || !m[Criteria].Items? then Error
    else
      var criteria := CheckCriteria(lib, m[Criteria].items);
      if criteria.Error? then Error
      else
        var r := Rubric(OriginNamed(source.value).value, generatedAt.value, planSlug.value, goal.value,
            TextAt(m, Engine), criteria.value);
        if Valid(lib, r) then Ok(r) else Error
  }

  const DELIMITER: string := "---"
  const FOUR: string := "    "

  // ---- Writing -------------------------------------------------------------------------------

  function OptionalLine(pre: string, f: Field, text: Option<string>): seq<string> {
    if text.Some? then [KeyLine(pre, NameOf(f), text.value)] else []
  }

  function WeightText<N>(lib: Library<N>, c: Criterion<N>): Option<string> {
    if c.weight.Some? then Some(lib.numbers.text(c.weight.value)) else None
  }

  function Quoted(s: Option<string>): Option<string> {
    if s.Some? then Some(YamlScalar(s.value)) else None
  }

  /** The lines of a criterion below its first. */
  function DetailLines<N>(lib: Library<N>, c: Criterion<N>): seq<string> {
    [KeyLine(FOUR, NameOf(Description), YamlScalar(c.description))]
    + OptionalLine(FOUR, Weight, WeightText(lib, c))
    + OptionalLine(FOUR, EvidenceHint, Quoted(c.evidenceHint))
  }

  function CriterionLines<N>(lib: Library<N>, c: Criterion<N>): seq<string> {
    [DashLine(NameOf(Id), c.id)] + DetailLines(lib, c)
  }

  function CriteriaLines<N>(lib: Library<N>, cs: seq<Criterion<N>>): seq<string> {
    if cs == [] then [] else CriterionLines(lib, cs[0]) + CriteriaLines(lib, cs[1..])
  }

  function FixedLines<N>(r: Rubric<N>): seq<string> {
    [KeyLine("", NameOf(Version), "1"), KeyLine("", NameOf(Source), OriginText(r.source)),
        KeyLine("", NameOf(GeneratedAt), r.generatedAt)]
  }

  function HeadLines<N>(r: Rubric<N>): seq<string> {
    FixedLines(r)
    + [KeyLine("", NameOf(PlanSlug), YamlScalar(r.planSlug))]
    + [KeyLine("", NameOf(Goal), YamlScalar(r.goal))]
    + OptionalLine("", Engine, Quoted(r.engine))
  }

  function BodyLines<N>(lib: Library<N>, r: Rubric<N>): seq<string> {
    HeadLines(r) + [NameOf(Criteria) + [':']] + CriteriaLines(lib, r.criteria)
  }

  function Render<N>(lib: Library<N>, r: Rubric<N>): string {
    Join(['\n'], [DELIMITER] + BodyLines(lib, r) + [DELIMITER]) + ['\n']
  }

  // ---- Reading -------------------------------------------------------------------------------

  /** `replace(/\r\n/g, '\n').replace(/\r/g, '\n')` */
  function NormaliseBreaks(s: string): (t: string)
    ensures '\r' !in t
  {
    if s == "" then ""
    else if s[0] != '\r' then [s[0]] + NormaliseBreaks(s[1..])
    else if |s| > 1 && s[1] == '\n' then "\n" + NormaliseBreaks(s[2..])
    else "\n" + NormaliseBreaks(s[1..])
  }

  predicate IsDelimiter(line: string) {
    Trim(line) == DELIMITER
  }

  /** The lines between the two delimiters. */
  function FrontMatter(raw: string): Option<seq<string>> {
    Between(IsDelimiter, Split('\n', NormaliseBreaks(raw)))
  }

  function Parse<N(==)>(lib: Library<N>, raw: string): Result<Rubric<N>> {
    var lines := FrontMatter(raw);
    if lines.None? then Error
    else match ParseTop(RubricCutter(lib.numbers), lines.value, 0, map[])
         case Error => Error
         case Ok(document) => CheckRubric(lib, document)
  }

  method FindFrontMatter(raw: string) returns (front: Option<seq<string>>)
    ensures front == FrontMatter(raw)
  {
    var lines := Split('\n', NormaliseBreaks(raw));
    if !IsDelimiter(lines[0]) { return None; }
    var close := 1;
    while close < |lines| && !IsDelimiter(lines[close])
      invariant 1 <= close <= |lines| && FirstFrom(IsDelimiter, lines, 1) == FirstFrom(IsDelimiter, lines, close)
    {
      close := close + 1;
    }
    if close == |lines| { return None; }
    return Some(lines[1..close]);
  }

  method ParseRubricFrontmatter<N(==)>(lib: Library<N>, raw: string) returns (r: Result<Rubric<N>>)
    ensures r == Parse(lib, raw)
  {
    var lines := FindFrontMatter(raw);
    if lines.None? { return Error; }
    var document := ParseRubricYamlSubset(RubricCutter(lib.numbers), lines.value);
    if document.Error? { return Error; }
    return CheckRubric(lib, document.value);
  }

  method PushHead<N>(lines: seq<string>, r: Rubric<N>) returns (more: seq<string>)
    ensures more == lines + HeadLines(r)
  {
    more := lines + [KeyLine("", NameOf(Version), "1")];
    more := more + [KeyLine("", NameOf(Source), OriginText(r.source))];
    more := more + [KeyLine("", NameOf(GeneratedAt), r.generatedAt)];
    more := more + [KeyLine("", NameOf(PlanSlug), YamlScalar(r.planSlug))];
    more := more + [KeyLine("", NameOf(Goal), YamlScalar(r.goal))];
    if r.engine.Some? {
      more := more + [KeyLine("", NameOf(Engine), YamlScalar(r.engine.value))];
    }
  }

  method PushCriterion<N>(lines: seq<string>, lib: Library<N>, c: Criterion<N>) returns (more: seq<string>)
    ensures more == lines + CriterionLines(lib, c)
  {
    more := lines + [DashLine(NameOf(Id), c.id)];
    more := more + [KeyLine(FOUR, NameOf(Description), YamlScalar(c.description))];
    if c.weight.Some? {
      more := more + [KeyLine(FOUR, NameOf(Weight), lib.numbers.text(c.weight.value))];
    }
    if c.evidenceHint.Some? {
      more := more + [KeyLine(FOUR, NameOf(EvidenceHint), YamlScalar(c.evidenceHint.value))];
    }
  }

  method PushCriteria<N>(lines: seq<string>, lib: Library<N>, cs: seq<Criterion<N>>) returns (more: seq<string>)
    ensures more == lines + CriteriaLines(lib, cs)
  {
    more := lines;
    for i := 0 to |cs|
      invariant lines + CriteriaLines(lib, cs) == more + CriteriaLines(lib, cs[i..])
    {
      ghost var before, here, rest := more, CriterionLines(lib, cs[i]), CriteriaLines(lib, cs[i + 1..]);
      assert cs[i..][1..] == cs[i + 1..];
      assert before + (here + rest) == (before + here) + rest;
      more := PushCriterion(more, lib, cs[i]);
    }
    assert more + [] == more;
  }

  lemma Regroup<T>(delimiter: T, head: seq<T>, key: T, tail: seq<T>)
    ensures (([delimiter] + head) + [key]) + tail == [delimiter] + (head + [key] + tail)
  {
  }

  method RenderRubricFrontmatter<N>(lib: Library<N>, r: Rubric<N>) returns (text: string)
    ensures text == Render(lib, r)
  {
    var lines := [DELIMITER];
    lines := PushHead(lines, r);
    lines := lines + [NameOf(Criteria) + [':']];
    lines := PushCriteria(lines, lib, r.criteria);
    lines := lines + [DELIMITER];
    Regroup(DELIMITER, HeadLines(r), NameOf(Criteria) + [':'], CriteriaLines(lib, r.criteria));
    return Join(['\n'], lines) + ['\n'];
  }
}
