/** Scalars of a rubric's front matter: how a string is quoted, and what a token reads as. */
module RubricScalars {
  import opened Escaping
  import opened Options

  // ---- Characters ----------------------------------------------------------------

  /** White space as `trim` and `\s` have it. */
  predicate IsSpace(c: char) {
    var n := c as int;
    || 9 <= n <= 13 || n == 32 || n == 0xA0 || n == 0x1680 || 0x2000 <= n <= 0x200A
    || n == 0x2028 || n == 0x2029 || n == 0x202F || n == 0x205F || n == 0x3000 || n == 0xFEFF
  }

  predicate IsDigit(c: char) {
    '0' <= c <= '9'
  }

  predicate OneLine(s: string) {
    '\r' !in s && '\n' !in s
  }

  function TrimStart(s: string): (t: string)
    ensures t != [] ==> !IsSpace(t[0])
    ensures |t| <= |s| && t == s[|s| - |t|..]
    ensures forall i :: 0 <= i < |s| - |t| ==> IsSpace(s[i])
  {
    if s != [] && IsSpace(s[0]) then TrimStart(s[1..]) else s
  }

  function TrimEnd(s: string): (t: string)
    ensures t != [] ==> !IsSpace(t[|t| - 1])
    ensures |t| <= |s| && t == s[..|t|]
  {
    if s != [] && IsSpace(s[|s| - 1]) then TrimEnd(s[..|s| - 1]) else s
  }

  function Trim(s: string): string {
    TrimEnd(TrimStart(s))
  }

  /** The number of white-space characters that `s` starts with. */
  function Indent(s: string): (n: nat)
    ensures n <= |s| && (n < |s| ==> !IsSpace(s[n]))
    ensures forall i :: 0 <= i < n ==> IsSpace(s[i])
  {
    |s| - |TrimStart(s)|
  }

  // ---- Quoting -------------------------------------------------------------------

  function Escape(s: string): string {
    ReplaceAll(ReplaceAll(s, "\\", "\\\\"), "\"", "\\\"")
  }

  function Unescape(s: string): string {
    ReplaceAll(ReplaceAll(ReplaceAll(s, "\\\"", "\""), "\\'", "'"), "\\\\", "\\")
  }

  function DigitRun(s: string): (n: nat)
    ensures n <= |s| && (n < |s| ==> !IsDigit(s[n])) && forall i :: 0 <= i < n ==> IsDigit(s[i])
  {
    if s != "" && IsDigit(s[0]) then 1 + DigitRun(s[1..]) else 0
  }

  predicate AllDigits(s: string) {
    s != "" && DigitRun(s) == |s|
  }

  function Unsigned(s: string): string {
    if s != "" && s[0] == '-' then s[1..] else s
  }

  predicate IntegerShape(s: string) {
    AllDigits(Unsigned(s))
  }

  predicate DecimalShape(s: string) {
    var t := Unsigned(s);
    var n := DigitRun(t);
    0 < n < |t| && t[n] == '.' && AllDigits(t[n + 1..])
  }

  predicate NumberShape(s: string) {
    IntegerShape(s) || DecimalShape(s)
  }

  /** `s` has a digit wherever the shape has a zero, and the shape's own marks elsewhere. */
  predicate Fits(s: string, shape: string) {
    |s| == |shape| && forall i :: 0 <= i < |s| ==> if shape[i] == '0' then IsDigit(s[i]) else s[i] == shape[i]
  }

  predicate ZoneShape(s: string) {
    || s == "Z"
    || (s != "" && (s[0] == '+' || s[0] == '-') && (Fits(s[1..], "00:00") || Fits(s[1..], "0000")))
  }

  predicate ZoneAfterFraction(s: string) {
    if s != "" && s[0] == '.' then
      var n := DigitRun(s[1..]);
      n > 0 && ZoneShape(s[1 + n..])
    else ZoneShape(s)
  }

  predicate IsoDatetime(s: string) {
    |s| >= 20 && Fits(s[..19], "0000-00-00T00:00:00") && ZoneAfterFraction(s[19..])
  }

  predicate NeedsQuote(s: string) {
    || s == ""
    || IsSpace(s[0]) || IsSpace(s[|s| - 1])
    || ':' in s || '#' in s || '"' in s || '\'' in s
    || s[0] == '-'
    || s == "true" || s == "false"
    || NumberShape(s)
    || IsoDatetime(s)
  }

  function YamlScalar(s: string): string {
    if NeedsQuote(s) then "\"" + Escape(s) + "\"" else s
  }

  function StripQuotes(s: string): string {
    if |s| >= 2 && (s[0] == s[|s| - 1] == '"' || s[0] == s[|s| - 1] == '\'') then Unescape(s[1..|s| - 1]) else s
  }

  // ---- What a token reads as -------------------------------------------------------

  datatype Scalar<N> = Str(s: string) | Num(n: N) | Bool(b: bool)

  /** Numbers are taken from the language: `value` gives nothing when a number is too large. */
  datatype Numbers<!N> = Numbers(
    text: N -> string,
    value: string -> Option<N>,
    inUnit: N -> bool,
    one: N)

  function CoerceScalar<N>(numbers: Numbers<N>, s: string): Scalar<N> {
    if s == "" then Str("")
    else if s == "true" then Bool(true)
    else if s == "false" then Bool(false)
    else if IsoDatetime(s) then Str(s)
    else if NumberShape(s) && numbers.value(s).Some? then Num(numbers.value(s).value)
    else Str(s)
  }

  /** A string that no reading turns into something else. */
  predicate PlainString<N>(numbers: Numbers<N>, s: string) {
    s != "true" && s != "false" && !(NumberShape(s) && numbers.value(s).Some?)
  }

  lemma {:induction false} IsoIsNoNumber(s: string)
    requires IsoDatetime(s)
    ensures !NumberShape(s)
  {
    var date := s[..19];
    assert forall i :: 0 <= i < 19 ==> date[i] == s[i];
    assert "0000-00-00T00:00:00"[4] == '-' && forall i :: 0 <= i < 4 ==> "0000-00-00T00:00:00"[i] == '0';
    assert s[0] != '-' && !IsDigit(s[4]) && s[4] != '.';
    assert DigitRun(s) == 4;
  }

  /** A token keeps its text as a string exactly when it has no boolean or number shape;
      the test for a date never changes the outcome. */
  lemma CoerceKeepsPlainStrings<N>(numbers: Numbers<N>, s: string)
    ensures CoerceScalar(numbers, s) == Str(s) <==> PlainString(numbers, s)
    ensures CoerceScalar(numbers, s).Str? ==> CoerceScalar(numbers, s) == Str(s)
  {
    if IsoDatetime(s) {
      IsoIsNoNumber(s);
    }
  }

  lemma NumberShapeHas(s: string, i: nat)
    requires NumberShape(s) && i < |s|
    ensures IsDigit(s[i]) || s[i] == '-' || s[i] == '.'
  {
    var t := Unsigned(s);
    if t != s && i > 0 {
      assert s[i] == t[i - 1];
    }
    var n := DigitRun(t);
    if n < |t| {
      var fraction := t[n + 1..];
      assert forall j :: n < j < |t| ==> t[j] == fraction[j - (n + 1)];
    }
  }

  // ---- Round trips ------------------------------------------------------------------

  /** Any mix of backslashes, quotes, colons and hashes survives. */
  lemma UnescapeUndoesEscape(s: string)
    ensures Unescape(Escape(s)) == s
  {
    ThreePassesUndoTwo(s, '\\', '"', '\'');
  }

  /** A rendered string, read back, is the string before it is coerced. */
  lemma StripUndoesYamlScalar(s: string)
    ensures StripQuotes(YamlScalar(s)) == s
  {
    if NeedsQuote(s) {
      var quoted := YamlScalar(s);
      assert quoted[1..|quoted| - 1] == Escape(s);
      UnescapeUndoesEscape(s);
    }
  }

  /** A text that trimming does not change, and that is not empty. */
  predicate Token(s: string) {
    s != "" && !IsSpace(s[0]) && !IsSpace(s[|s| - 1])
  }

  lemma YamlScalarIsToken(s: string)
    ensures Token(YamlScalar(s))
  {
  }

  lemma YamlScalarKeepsLines(s: string)
    requires OneLine(s)
    ensures OneLine(YamlScalar(s))
  {
    forall c | c == '\r' || c == '\n' ensures c !in Escape(s) {
      ReplaceKeepsOut(s, "\\", "\\\\", c);
      ReplaceKeepsOut(ReplaceAll(s, "\\", "\\\\"), "\"", "\\\"", c);
    }
  }

  lemma StripKeepsLines(s: string)
    requires OneLine(s)
    ensures OneLine(StripQuotes(s))
  {
    if |s| >= 2 {
      var inner := s[1..|s| - 1];
      forall c | c == '\r' || c == '\n' ensures c !in Unescape(inner) {
        ReplaceKeepsOut(inner, "\\\"", "\"", c);
        ReplaceKeepsOut(ReplaceAll(inner, "\\\"", "\""), "\\'", "'", c);
        ReplaceKeepsOut(ReplaceAll(ReplaceAll(inner, "\\\"", "\""), "\\'", "'"), "\\\\", "\\", c);
      }
    }
  }
}
