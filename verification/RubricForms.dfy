/** What scalars and lines look like, part by part: which strings are quoted and how, which
    have the shape of a number or of a date, and what a line of any kind reads as. */
module RubricForms {
  import opened Escaping
  import opened Options
  import opened RubricLines
  import opened RubricScalars

  // ---- Characters ------------------------------------------------------------------------

  /** The white space and the line terminators of ECMAScript. */
  const Spaces := [
    '\U{0009}', '\U{000A}', '\U{000B}', '\U{000C}', '\U{000D}', '\U{0020}', '\U{00A0}', '\U{1680}',
    '\U{2000}', '\U{2001}', '\U{2002}', '\U{2003}', '\U{2004}', '\U{2005}', '\U{2006}', '\U{2007}',
    '\U{2008}', '\U{2009}', '\U{200A}', '\U{2028}', '\U{2029}', '\U{202F}', '\U{205F}', '\U{3000}',
    '\U{FEFF}'
  ]

  const DecimalDigits := "0123456789"

  lemma CharactersAreListed(c: char)
    ensures IsSpace(c) <==> c in Spaces
    ensures IsDigit(c) <==> c in DecimalDigits
  {
    if IsSpace(c) {
      var n := c as int;
      var k := if n <= 13 then n - 9 else if n == 32 then 5 else if n == 0xA0 then 6 else if n == 0x1680 then 7
               else if n <= 0x200A then 8 + (n - 0x2000) else if n <= 0x2029 then 19 + (n - 0x2028)
               else if n == 0x202F then 21 else if n == 0x205F then 22 else if n == 0x3000 then 23 else 24;
      assert Spaces[k] == c;
    }
    if IsDigit(c) {
      assert DecimalDigits[c as int - '0' as int] == c;
    }
  }

  // ---- Quoting -------------------------------------------------------------------------

  /** Quoting puts a backslash before each backslash and each double quote, and touches
      nothing else. */
  lemma EscapeByCharacter(c: char, s: string)
    ensures Escape("") == ""
    ensures Escape([c] + s) == (if c == '\\' then ['\\', '\\'] else if c == '"' then ['\\', '"'] else [c]) + Escape(s)
  {
    EscapeIsEscaped([c] + s);
    EscapeIsEscaped(s);
    assert ([c] + s)[1..] == s;
  }

  lemma EscapeIsEscaped(s: string)
    ensures Escape(s) == Escaped(s, '\\', '"')
  {
    ReplaceOneIsReplaceAll(s, '\\', ['\\', '\\']);
    ReplaceOneIsReplaceAll(Doubled(s, '\\'), '"', ['\\', '"']);
    TwoPassesEscape(s, '\\', '"');
  }

  /** A string is written as it is exactly when it is a token without marks, is no list item,
      and has the shape of no other kind of scalar; otherwise it stands in double quotes. */
  lemma WrittenPlainIff(s: string)
    ensures YamlScalar(s) == s <==>
            && Token(s) && s[0] != '-' && ':' !in s && '#' !in s && '"' !in s && '\'' !in s
            && s != "true" && s != "false" && !NumberShape(s) && !IsoDatetime(s)
    ensures YamlScalar(s) == s || YamlScalar(s) == (['"'] + Escape(s)) + ['"']
  {
    if NeedsQuote(s) {
      EscapeIsNotShorter(s);
      assert |YamlScalar(s)| == |Escape(s)| + 2;
      assert "\"" + Escape(s) + "\"" == (['"'] + Escape(s)) + ['"'];
    }
  }

  lemma {:induction false} EscapeIsNotShorter(s: string)
    ensures |Escape(s)| >= |s|
  {
    if s != "" {
      EscapeIsNotShorter(s[1..]);
      EscapeByCharacter(s[0], s[1..]);
      assert [s[0]] + s[1..] == s;
    } else {
      EscapeByCharacter(' ', "");
    }
  }

  // ---- Unquoting -------------------------------------------------------------------------

  lemma SkipOne<T>(c: T, rest: seq<T>, p: T, q: T, with: seq<T>)
    requires c != p
    ensures ReplaceAll([c] + rest, [p, q], with) == [c] + ReplaceAll(rest, [p, q], with)
  {
    var s := [c] + rest;
    assert s[1..] == rest;
    if rest != [] {
      assert s[..2][0] == c && [p, q][0] == p;
    }
  }

  lemma {:induction false} ReplaceSkips<T>(a: seq<T>, s: seq<T>, p: T, q: T, with: seq<T>)
    requires p !in a
    ensures ReplaceAll(a + s, [p, q], with) == a + ReplaceAll(s, [p, q], with)
  {
    if a == [] {
      assert a + s == s;
    } else {
      assert a[0] in a && a + s == [a[0]] + (a[1..] + s);
      ReplaceSkips(a[1..], s, p, q, with);
      SkipOne(a[0], a[1..] + s, p, q, with);
    }
  }

  /** A pair that stands once is replaced where it stands. */
  lemma ReplaceOnce<T>(a: seq<T>, p: T, q: T, b: seq<T>, with: seq<T>)
    requires p !in a && p !in b
    ensures ReplaceAll((a + [p, q]) + b, [p, q], with) == (a + with) + b
  {
    var rest := [p, q] + b;
    assert (a + [p, q]) + b == a + rest;
    ReplaceSkips(a, rest, p, q, with);
    assert rest[..2] == [p, q] && rest[2..] == b;
    NothingToReplace(b, p, q, with);
    assert a + (with + b) == (a + with) + b;
  }

  lemma {:induction false} NothingToReplace<T>(s: seq<T>, p: T, q: T, with: seq<T>)
    requires p !in s
    ensures ReplaceAll(s, [p, q], with) == s
  {
    if |s| >= 2 {
      assert s[..2][0] == s[0] && s[0] in s;
      NothingToReplace(s[1..], p, q, with);
      assert [s[0]] + s[1..] == s;
    }
  }

  /** Each of the three escapes is undone: a backslash before a quote of either kind goes, and
      two backslashes become one. */
  lemma EscapesAreUndone(a: string, b: string)
    requires '\\' !in a && '\\' !in b
    ensures Unescape(a) == a
    ensures Unescape((a + ['\\', '"']) + b) == (a + ['"']) + b
    ensures Unescape((a + ['\\', '\'']) + b) == (a + ['\'']) + b
    ensures b == "" || (b[0] != '"' && b[0] != '\'') ==> Unescape((a + ['\\', '\\']) + b) == (a + ['\\']) + b
  {
    NothingToReplace(a, '\\', '"', "\"");
    NothingToReplace(a, '\\', '\'', "'");
    NothingToReplace(a, '\\', '\\', "\\");
    DoubleQuoteUndone(a, b);
    SingleQuoteUndone(a, b);
    BackslashUndone(a, b);
  }

  lemma DoubleQuoteUndone(a: string, b: string)
    requires '\\' !in a && '\\' !in b
    ensures Unescape((a + ['\\', '"']) + b) == (a + ['"']) + b
  {
    var after := (a + ['"']) + b;
    ReplaceOnce(a, '\\', '"', b, "\"");
    NothingToReplace(after, '\\', '\'', "'");
    NothingToReplace(after, '\\', '\\', "\\");
  }

  lemma {:induction false} OtherPairStays<T>(a: seq<T>, p: T, q: T, r: T, b: seq<T>, with: seq<T>)
    requires p !in a && p !in b && q != r && (q != p || b == [] || b[0] != r)
    ensures ReplaceAll((a + [p, q]) + b, [p, r], with) == (a + [p, q]) + b
  {
    var s := (a + [p, q]) + b;
    if a == [] {
      assert s[..2] == [p, q] && s[1..] == [q] + b;
      if b != [] {
        assert s[1..][..2] == [q, b[0]] && s[1..][1..] == b;
        NothingToReplace(b, p, r, with);
        assert [p] + ([q] + b) == s;
      }
    } else {
      assert s[0] == a[0] && s[0] in a && s[..2][0] == a[0];
      assert s[1..] == (a[1..] + [p, q]) + b;
      OtherPairStays(a[1..], p, q, r, b, with);
      assert [a[0]] + ((a[1..] + [p, q]) + b) == s;
    }
  }

  lemma SingleQuoteUndone(a: string, b: string)
    requires '\\' !in a && '\\' !in b
    ensures Unescape((a + ['\\', '\'']) + b) == (a + ['\'']) + b
  {
    var after := (a + ['\'']) + b;
    OtherPairStays(a, '\\', '\'', '"', b, "\"");
    ReplaceOnce(a, '\\', '\'', b, "'");
    NothingToReplace(after, '\\', '\\', "\\");
  }

  lemma BackslashUndone(a: string, b: string)
    requires '\\' !in a && '\\' !in b
    ensures b == [] || (b[0] != '"' && b[0] != '\'') ==> Unescape((a + ['\\', '\\']) + b) == (a + ['\\']) + b
  {
    if b == [] || (b[0] != '"' && b[0] != '\'') {
      OtherPairStays(a, '\\', '\\', '"', b, "\"");
      OtherPairStays(a, '\\', '\\', '\'', b, "'");
      ReplaceOnce(a, '\\', '\\', b, "\\");
    }
  }

  /** What stands between two quotes of one kind is unescaped; everything else stays. */
  lemma QuotesAreStripped(inner: string, s: string)
    ensures StripQuotes((['"'] + inner) + ['"']) == Unescape(inner)
    ensures StripQuotes((['\''] + inner) + ['\'']) == Unescape(inner)
    ensures |s| < 2 || s[0] != s[|s| - 1] || (s[0] != '"' && s[0] != '\'') ==> StripQuotes(s) == s
  {
    assert ((['"'] + inner) + ['"'])[1..|inner| + 1] == inner;
    assert ((['\''] + inner) + ['\''])[1..|inner| + 1] == inner;
  }

  // ---- Numbers and dates --------------------------------------------------------------------

  predicate Digits(s: string) {
    s != "" && forall i {:trigger s[i]} :: 0 <= i < |s| ==> '0' <= s[i] <= '9'
  }

  lemma {:induction false} AllDigitsIff(s: string)
    ensures AllDigits(s) <==> Digits(s)
  {
    if s != "" {
      DigitRunOf(s, "");
      if AllDigits(s) {
        assert forall i :: 0 <= i < |s| ==> IsDigit(s[i]);
      }
    }
  }

  /** A run of digits ends where something else begins. */
  lemma {:induction false} DigitRunOf(digits: string, rest: string)
    requires rest == "" || !IsDigit(rest[0])
    ensures (forall i {:trigger digits[i]} :: 0 <= i < |digits| ==> IsDigit(digits[i])) ==>
            DigitRun(digits + rest) == |digits| && DigitRun(digits) == |digits|
  {
    if (forall i {:trigger digits[i]} :: 0 <= i < |digits| ==> IsDigit(digits[i])) {
      if digits == "" {
        assert digits + rest == rest;
      } else {
        assert (digits + rest)[1..] == digits[1..] + rest;
        DigitRunOf(digits[1..], rest);
      }
    }
  }

  ghost predicate NumberParts(s: string, sign: string, whole: string, fraction: string) {
    && (sign == "" || sign == "-") && Digits(whole)
    && (fraction == "" || (fraction[0] == '.' && Digits(fraction[1..])))
    && s == (sign + whole) + fraction
  }

  /** A number is an optional minus sign, digits, and perhaps a dot with digits after it. */
  lemma NumberShapeParts(s: string) returns (sign: string, whole: string, fraction: string)
    requires NumberShape(s)
    ensures NumberParts(s, sign, whole, fraction)
  {
    var t := Unsigned(s);
    sign := if t == s then "" else "-";
    assert s == sign + t;
    var n := DigitRun(t);
    whole, fraction := t[..n], t[n..];
    assert t == whole + fraction;
    if n < |t| {
      AllDigitsIff(t[n + 1..]);
      assert fraction[1..] == t[n + 1..];
    }
    assert s == (sign + whole) + fraction;
  }

  lemma NumberPartsShape(s: string, sign: string, whole: string, fraction: string)
    requires NumberParts(s, sign, whole, fraction)
    ensures NumberShape(s)
  {
    var t := whole + fraction;
    assert s == sign + t;
    assert Unsigned(s) == t by {
      if sign == "-" {
        assert s[0] == '-' && s[1..] == t;
      } else {
        assert s == t;
        assert s[0] == whole[0];
      }
    }
    DigitRunOf(whole, fraction);
    if fraction != "" {
      assert t[|whole| + 1..] == fraction[1..];
      AllDigitsIff(fraction[1..]);
    } else {
      assert t == whole;
      AllDigitsIff(whole);
    }
  }

  predicate DigitAt(s: string, i: nat) {
    i < |s| && '0' <= s[i] <= '9'
  }

  /** dddd-dd-ddTdd:dd:dd */
  predicate Seconds(s: string) {
    && |s| == 19 && s[4] == '-' && s[7] == '-' && s[10] == 'T' && s[13] == ':' && s[16] == ':'
    && DigitAt(s, 0) && DigitAt(s, 1) && DigitAt(s, 2) && DigitAt(s, 3) && DigitAt(s, 5) && DigitAt(s, 6)
    && DigitAt(s, 8) && DigitAt(s, 9) && DigitAt(s, 11) && DigitAt(s, 12) && DigitAt(s, 14) && DigitAt(s, 15)
    && DigitAt(s, 17) && DigitAt(s, 18)
  }

  lemma SecondsFit(s: string)
    ensures Fits(s, "0000-00-00T00:00:00") <==> Seconds(s)
  {
    var shape := "0000-00-00T00:00:00";
    assert |shape| == 19 && shape[4] == '-' && shape[7] == '-' && shape[10] == 'T' && shape[13] == ':'
        && shape[16] == ':';
    assert shape[0] == '0' && shape[1] == '0' && shape[2] == '0' && shape[3] == '0' && shape[5] == '0'
        && shape[6] == '0';
    assert shape[8] == '0' && shape[9] == '0' && shape[11] == '0' && shape[12] == '0' && shape[14] == '0'
        && shape[15] == '0';
    assert shape[17] == '0' && shape[18] == '0';
    if Seconds(s) {
      forall i | 0 <= i < 19 ensures if shape[i] == '0' then IsDigit(s[i]) else s[i] == shape[i] {
        assert i == 0 || i == 1 || i == 2 || i == 3 || i == 4 || i == 5 || i == 6 || i == 7 || i == 8 || i == 9
               || i == 10 || i == 11 || i == 12 || i == 13 || i == 14 || i == 15 || i == 16 || i == 17 || i == 18;
      }
    }
  }

  /** Z, or a sign and four digits, with or without a colon in the middle. */
  predicate Zone(s: string) {
    || s == "Z"
    || (|s| == 6 && (s[0] == '+' || s[0] == '-') && DigitAt(s, 1) && DigitAt(s, 2) && s[3] == ':' && DigitAt(s, 4)
        && DigitAt(s, 5))
    || (|s| == 5 && (s[0] == '+' || s[0] == '-') && DigitAt(s, 1) && DigitAt(s, 2) && DigitAt(s, 3) && DigitAt(s, 4))
  }

  lemma ZoneIs(s: string)
    ensures ZoneShape(s) <==> Zone(s)
  {
    if s != "" && (s[0] == '+' || s[0] == '-') {
      var t := s[1..];
      assert forall i {:trigger t[i]} :: 0 <= i < |t| ==> t[i] == s[i + 1];
      var colon, plain := "00:00", "0000";
      assert colon[0] == '0' && colon[1] == '0' && colon[2] == ':' && colon[3] == '0' && colon[4] == '0'
          && |colon| == 5;
      assert plain[0] == '0' && plain[1] == '0' && plain[2] == '0' && plain[3] == '0' && |plain| == 4;
      if Fits(t, colon) {
        assert IsDigit(t[0]) && IsDigit(t[1]) && t[2] == ':' && IsDigit(t[3]) && IsDigit(t[4]);
      }
      if Fits(t, plain) {
        assert IsDigit(t[0]) && IsDigit(t[1]) && IsDigit(t[2]) && IsDigit(t[3]);
      }
    }
  }

  ghost predicate DateParts(s: string, seconds: string, fraction: string, zone: string) {
    && Seconds(seconds) && Zone(zone)
    && (fraction == "" || (fraction[0] == '.' && Digits(fraction[1..])))
    && s == seconds + (fraction + zone)
  }

  /** A date and time has seconds, perhaps a fraction of them, and a zone. */
  lemma DateShapeParts(s: string) returns (seconds: string, fraction: string, zone: string)
    requires IsoDatetime(s)
    ensures DateParts(s, seconds, fraction, zone)
  {
    seconds := s[..19];
    var rest := s[19..];
    SecondsFit(seconds);
    if rest[0] == '.' {
      var n := DigitRun(rest[1..]);
      fraction, zone := rest[..n + 1], rest[n + 1..];
      ZoneIs(zone);
      assert forall i :: 0 <= i < n ==> fraction[1..][i] == rest[1..][i];
      assert rest == fraction + zone;
    } else {
      fraction, zone := "", rest;
      ZoneIs(zone);
      assert rest == fraction + zone;
    }
    assert s == seconds + rest;
  }

  lemma FractionThenZone(fraction: string, zone: string)
    requires ZoneShape(zone) && (fraction == "" || (fraction[0] == '.' && Digits(fraction[1..])))
    ensures ZoneAfterFraction(fraction + zone)
  {
    var rest := fraction + zone;
    if fraction != "" {
      assert rest[1..] == fraction[1..] + zone;
      DigitRunOf(fraction[1..], zone);
      assert rest[|fraction|..] == zone;
    } else {
      assert rest == zone;
    }
  }

  lemma DatePartsShape(s: string, seconds: string, fraction: string, zone: string)
    requires DateParts(s, seconds, fraction, zone)
    ensures IsoDatetime(s)
  {
    assert s[..19] == seconds && s[19..] == fraction + zone;
    SecondsFit(seconds);
    ZoneIs(zone);
    FractionThenZone(fraction, zone);
  }

  // ---- Lines ------------------------------------------------------------------------------

  predicate Blank(s: string) {
    forall i {:trigger s[i]} :: 0 <= i < |s| ==> IsSpace(s[i])
  }

  /** Trimming takes white space away at both ends and nothing else. */
  lemma {:induction false} TrimTakesBlanks(pre: string, s: string, post: string)
    requires Blank(pre) && Blank(post) && (s == "" || Token(s))
    ensures Trim((pre + s) + post) == s
    decreases |post|
  {
    if s == "" {
      assert (pre + s) + post == pre + post;
      AllBlank(pre + post);
    } else {
      assert (pre + s) + post == pre + (s + post);
      TrimStartSkips(pre, s + post);
      TrimEndTakes(s, post);
    }
  }

  lemma {:induction false} AllBlank(s: string)
    requires Blank(s)
    ensures TrimStart(s) == ""
  {
    if s != "" {
      AllBlank(s[1..]);
    }
  }

  lemma {:induction false} TrimEndTakes(s: string, post: string)
    requires Token(s) && Blank(post)
    ensures TrimEnd(s + post) == s
  {
    if post == "" {
      assert s + post == s;
    } else {
      var front := post[..|post| - 1];
      assert (s + post)[..|s + post| - 1] == s + front;
      TrimEndTakes(s, front);
    }
  }

  /** Blank lines and those that start with a hash, after white space, are ignored; no others. */
  lemma IgnoredLines(pre: string, c: char, rest: string)
    requires Blank(pre) && !IsSpace(c)
    ensures Ignored(pre)
    ensures Ignored(pre + ([c] + rest)) <==> c == '#'
  {
    AllBlank(pre);
    TrimStartSkips(pre, [c] + rest);
    TrimEndKeepsStart([c] + rest);
  }

  /** A line has an entry exactly when it has a colon; the key is what stands before the first
      one and the value what stands after it, both without the white space around them. */
  lemma EntryByColon<N>(numbers: Numbers<N>, line: string, a: string, key: string, b: string, c: string, value: string,
      d: string)
    requires Blank(a) && Blank(b) && Blank(c) && Blank(d)
    requires (key == "" || Token(key)) && ':' !in key && (value == "" || Token(value))
    ensures ':' !in line ==> EntryOf(numbers, line).None?
    ensures EntryOf(numbers,
            (((a + key) + b) + [':']) + ((c + value) + d)) == Some((FieldNamed(key), Read(numbers, value)))
  {
    var left, right := (a + key) + b, (c + value) + d;
    var all := (left + [':']) + right;
    assert ':' !in left by {
      assert ':' !in a && ':' !in b by { assert !IsSpace(':'); }
    }
    IndexOfFirst(left, ':', right);
    assert all[..|left|] == left && all[|left| + 1..] == right;
    TrimTakesBlanks(a, key, b);
    TrimTakesBlanks(c, value, d);
  }

  /** A list item is a dash with white space after it, at any indentation. */
  lemma ItemByDash(pre: string, c: char, d: char, rest: string)
    requires Blank(pre) && !IsSpace(c)
    ensures StartsItem(pre + ([c, d] + rest)) <==> c == '-' && IsSpace(d)
    ensures !StartsItem(pre) && !StartsItem(pre + [c])
    ensures Indent(pre + ([c, d] + rest)) == |pre|
  {
    TrimStartSkips(pre, [c, d] + rest);
    TrimStartSkips(pre, [c]);
    AllBlank(pre);
  }

  /** The names of the fields, letter by letter. */
  lemma FieldsAreSpelled()
    ensures NameOf(Version) == "version" && NameOf(Source) == "source" && NameOf(GeneratedAt) == "generatedAt"
    ensures NameOf(PlanSlug) == "planSlug" && NameOf(Goal) == "goal" && NameOf(Engine) == "engine"
    ensures NameOf(Criteria) == "criteria" && NameOf(Id) == "id" && NameOf(Description) == "description"
    ensures NameOf(Weight) == "weight" && NameOf(EvidenceHint) == "evidenceHint"
  {
  }

  /** The two words, the numbers that are in range, and text. */
  lemma CoercedTable<N>(numbers: Numbers<N>, s: string)
    ensures CoerceScalar(numbers, "true") == Bool(true) && CoerceScalar(numbers, "false") == Bool(false)
    ensures s != "true" && s != "false" ==>
            CoerceScalar(numbers, s) == if NumberShape(s) && numbers.value(s).Some? then Num(numbers.value(s).value)
                else Str(s)
  {
    CoerceKeepsPlainStrings(numbers, s);
    if IsoDatetime(s) {
      IsoIsNoNumber(s);
    }
    if s == "" {
      assert !IntegerShape(s) && !DecimalShape(s);
    }
  }

  /** The first character is the only quotation mark of either kind. */
  ghost predicate LoneQuote(s: string) {
    s != "" && forall i {:trigger s[i]} :: 0 <= i < |s| ==> (s[i] in {'"', '\''} <==> i == 0)
  }

  lemma OpensQuoteIff(s: string)
    ensures OpensQuote(s) <==> LoneQuote(s)
  {
    if s != "" {
      var rest := s[1..];
      assert forall i {:trigger s[i]} :: 1 <= i < |s| ==> s[i] == rest[i - 1];
      assert forall i {:trigger rest[i]} :: 0 <= i < |rest| ==> rest[i] == s[i + 1];
    }
  }

  lemma DashIsCut(pre: string, gap: string, text: string)
    requires Blank(pre) && Blank(gap) && gap != "" && (text != "" ==> !IsSpace(text[0]))
    ensures var line := pre + (['-'] + (gap + text));
            StartsItem(line) && TrimStart(line[Indent(line) + 1..]) == text
  {
    var rest := gap + text;
    var line := pre + (['-'] + rest);
    TrimStartSkips(pre, ['-'] + rest);
    TrimStartSkips(gap, text);
    assert line[|pre| + 1..] == rest;
    assert line[|pre|] == '-' && line[|pre| + 1] == rest[0] == gap[0];
  }

  lemma AfterDashIs(line: string, text: string)
    requires StartsItem(line) && TrimStart(line[Indent(line) + 1..]) == text
    ensures AfterDash(line) == if '\U{2028}' in text || '\U{2029}' in text then None else Some(text)
  {
  }

  lemma FirstOfText<N>(numbers: Numbers<N>, line: string, text: string)
    requires AfterDash(line) == Some(text)
    ensures FirstOf(numbers, line) ==
            if ':' in text && !LoneQuote(text) then
              Some(map[EntryOf(numbers, text).value.0 := EntryOf(numbers, text).value.1])
            else Some(map[Other("__value__") := Read(numbers, text)])
  {
    OpensQuoteIff(text);
  }

  /** The text of an item is what follows the dash and the white space after it, up to the end of
      the line. With a colon it is an entry, unless it begins with its only quotation mark;
      otherwise it is one bare value, under a name that no field has. */
  lemma ItemText<N>(numbers: Numbers<N>, pre: string, gap: string, text: string)
    requires Blank(pre) && Blank(gap) && gap != "" && (text != "" ==> !IsSpace(text[0]))
    ensures FirstOf(numbers, pre + (['-'] + (gap + text))) ==
            if '\U{2028}' in text || '\U{2029}' in text then None
            else if ':' in text && !LoneQuote(text) then
              Some(map[EntryOf(numbers, text).value.0 := EntryOf(numbers, text).value.1])
            else Some(map[Other("__value__") := Read(numbers, text)])
  {
    var line := pre + (['-'] + (gap + text));
    DashIsCut(pre, gap, text);
    AfterDashIs(line, text);
    if AfterDash(line).Some? {
      FirstOfText(numbers, line, text);
    }
  }
}
