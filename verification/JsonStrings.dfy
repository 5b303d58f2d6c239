/** Strings in JSON text: how `JSON.stringify` quotes them, and how section 7 of RFC 8259
    reads them. */
module JsonStrings {
  import opened Options
  import opened Sorting

  const QUOTE: CodeUnit := 34
  const BACKSLASH: CodeUnit := 92

  predicate HighSurrogate(c: CodeUnit) {
    0xD800 <= c < 0xDC00
  }

  predicate LowSurrogate(c: CodeUnit) {
    0xDC00 <= c < 0xE000
  }

  function HexDigit(n: nat): CodeUnit
    requires n < 16
  {
    if n < 10 then 48 + n else 87 + n
  }

  /** `\u` and four lower-case hexadecimal digits. */
  function UnicodeEscape(c: CodeUnit): Text {
    [BACKSLASH, 117, HexDigit(c / 16 / 16 / 16), HexDigit(c / 16 / 16 % 16), HexDigit(c / 16 % 16), HexDigit(c % 16)]
  }

  /** The letter of a two-character escape. */
  function ShortEscape(c: CodeUnit): Option<CodeUnit> {
    if c == QUOTE then Some(QUOTE)
    else if c == BACKSLASH then Some(BACKSLASH)
    else if c == 8 then Some(98)
    else if c == 12 then Some(102)
    else if c == 10 then Some(110)
    else if c == 13 then Some(114)
    else if c == 9 then Some(116)
    else None
  }

  /** One unit, `alone` when it is not part of a surrogate pair. */
  function EscapeUnit(c: CodeUnit, alone: bool): Text {
    if ShortEscape(c).Some? then [BACKSLASH, ShortEscape(c).value]
    else if c < 32 || (alone && (HighSurrogate(c) || LowSurrogate(c))) then UnicodeEscape(c)
    else [c]
  }

  /** The characters between the quotation marks. */
  function Escaped(s: Text): Text {
    if s == [] then []
    else if HighSurrogate(s[0]) && |s| > 1 && LowSurrogate(s[1]) then
      EscapeUnit(s[0], false) + (EscapeUnit(s[1], false) + Escaped(s[2..]))
    else EscapeUnit(s[0], true) + Escaped(s[1..])
  }

  function Quote(s: Text): Text {
    [QUOTE] + (Escaped(s) + [QUOTE])
  }

  // ---- Reading -----------------------------------------------------------------------

  function HexValue(c: CodeUnit): Option<nat> {
    if 48 <= c <= 57 then Some(c - 48)
    else if 97 <= c <= 102 then Some(c - 87)
    else if 65 <= c <= 70 then Some(c - 55)
    else None
  }

  function FourHex(a: CodeUnit, b: CodeUnit, c: CodeUnit, d: CodeUnit): Option<CodeUnit> {
    var w, x, y, z := HexValue(a), HexValue(b), HexValue(c), HexValue(d);
    if w.None? || x.None? || y.None? || z.None? then None
    else
      var n := ((w.value * 16 + x.value) * 16 + y.value) * 16 + z.value;
      if n < 0x1_0000 then Some(n) else None
  }

  function LetterEscape(c: CodeUnit): Option<CodeUnit> {
    if c == QUOTE || c == BACKSLASH || c == 47 then Some(c)
    else if c == 98 then Some(8)
    else if c == 102 then Some(12)
    else if c == 110 then Some(10)
    else if c == 114 then Some(13)
    else if c == 116 then Some(9)
    else None
  }

  /** The next unit of a string, and how many it takes; control characters and unknown
      escapes are errors. */
  function ReadUnit(t: Text): (r: Option<(CodeUnit, nat)>)
    ensures r.Some? ==> 0 < r.value.1 <= |t|
  {
    if t == [] || t[0] < 32 || t[0] == QUOTE then None
    else if t[0] != BACKSLASH then Some((t[0], 1))
    else if |t| < 2 then None
    else if t[1] == 117 then
      if |t| < 6 || FourHex(t[2], t[3], t[4], t[5]).None? then None
      else Some((FourHex(t[2], t[3], t[4], t[5]).value, 6))
    else if LetterEscape(t[1]).None? then None
    else Some((LetterEscape(t[1]).value, 2))
  }

  /** The string up to the closing quotation mark, and what follows it. */
  function ReadString(t: Text): (r: Option<(Text, Text)>)
    ensures r.Some? ==> |r.value.1| < |t|
    decreases |t|
  {
    if t == [] then None
    else if t[0] == QUOTE then Some(([], t[1..]))
    else
      var unit := ReadUnit(t);
      if unit.None? then None
      else
        var rest := ReadString(t[unit.value.1..]);
        if rest.None? then None else Some(([unit.value.0] + rest.value.0, rest.value.1))
  }

  lemma HexRoundTrip(n: nat)
    requires n < 16
    ensures HexValue(HexDigit(n)) == Some(n)
  {
  }

  lemma FourHexDigits(w: nat, x: nat, y: nat, z: nat)
    requires w < 16 && x < 16 && y < 16 && z < 16
    ensures FourHex(HexDigit(w), HexDigit(x), HexDigit(y), HexDigit(z)) == Some(((w * 16 + x) * 16 + y) * 16 + z)
  {
    HexRoundTrip(w);
    HexRoundTrip(x);
    HexRoundTrip(y);
    HexRoundTrip(z);
  }

  lemma Digits(c: nat)
    ensures c == ((c / 16 / 16 / 16 * 16 + c / 16 / 16 % 16) * 16 + c / 16 % 16) * 16 + c % 16
  {
    var d := c / 16;
    var e := d / 16;
    assert c == d * 16 + c % 16 && d == e * 16 + d % 16 && e == e / 16 * 16 + e % 16;
  }

  lemma UnicodeRoundTrip(c: CodeUnit)
    ensures var e := UnicodeEscape(c); FourHex(e[2], e[3], e[4], e[5]) == Some(c)
  {
    FourHexDigits(c / 16 / 16 / 16, c / 16 / 16 % 16, c / 16 % 16, c % 16);
    Digits(c);
  }

  lemma ReadsEscapedUnit(c: CodeUnit, alone: bool, rest: Text)
    ensures ReadUnit(EscapeUnit(c, alone) + rest) == Some((c, |EscapeUnit(c, alone)|))
    ensures (EscapeUnit(c, alone) + rest)[0] != QUOTE
    ensures (EscapeUnit(c, alone) + rest)[|EscapeUnit(c, alone)|..] == rest
  {
    UnicodeRoundTrip(c);
  }

  lemma ReadStep(c: CodeUnit, alone: bool, tail: Text, s: Text, rest: Text)
    requires ReadString(tail) == Some((s, rest))
    ensures ReadString(EscapeUnit(c, alone) + tail) == Some(([c] + s, rest))
  {
    ReadsEscapedUnit(c, alone, tail);
  }

  lemma Regroup(a: Text, b: Text, c: Text, d: Text)
    ensures (a + (b + c)) + d == a + (b + (c + d)) && (a + b) + d == a + (b + d)
  {
  }

  lemma ReadPair(s: Text, rest: Text)
    requires |s| > 1 && HighSurrogate(s[0]) && LowSurrogate(s[1])
    requires ReadString(Escaped(s[2..]) + ([QUOTE] + rest)) == Some((s[2..], rest))
    ensures ReadString(Escaped(s) + ([QUOTE] + rest)) == Some((s, rest))
  {
    var end := [QUOTE] + rest;
    var tail := Escaped(s[2..]) + end;
    ReadStep(s[1], false, tail, s[2..], rest);
    ReadStep(s[0], false, EscapeUnit(s[1], false) + tail, [s[1]] + s[2..], rest);
    Regroup(EscapeUnit(s[0], false), EscapeUnit(s[1], false), Escaped(s[2..]), end);
    assert [s[0]] + ([s[1]] + s[2..]) == s;
  }

  lemma ReadSingle(s: Text, rest: Text)
    requires s != [] && !(HighSurrogate(s[0]) && |s| > 1 && LowSurrogate(s[1]))
    requires ReadString(Escaped(s[1..]) + ([QUOTE] + rest)) == Some((s[1..], rest))
    ensures ReadString(Escaped(s) + ([QUOTE] + rest)) == Some((s, rest))
  {
    var end := [QUOTE] + rest;
    ReadStep(s[0], true, Escaped(s[1..]) + end, s[1..], rest);
    Regroup(EscapeUnit(s[0], true), Escaped(s[1..]), [], end);
    assert [s[0]] + s[1..] == s;
  }

  /** A quoted string reads back as itself, wherever it stands. */
  lemma {:induction false} QuoteRoundTrip(s: Text, rest: Text)
    ensures ReadString(Escaped(s) + ([QUOTE] + rest)) == Some((s, rest))
    decreases |s|
  {
    if s == [] {
      assert ([QUOTE] + rest)[1..] == rest && [] + ([QUOTE] + rest) == [QUOTE] + rest;
    } else if HighSurrogate(s[0]) && |s| > 1 && LowSurrogate(s[1]) {
      QuoteRoundTrip(s[2..], rest);
      ReadPair(s, rest);
    } else {
      QuoteRoundTrip(s[1..], rest);
      ReadSingle(s, rest);
    }
  }

  /** How each code unit is written: seven have an escape of two characters; other control
      characters and surrogates that stand alone are written in lower-case hexadecimal; and
      everything else stands for itself. */
  lemma EscapeTable(c: CodeUnit, alone: bool)
    ensures var e := EscapeUnit(c, alone);
            match c
            case 34 => e == [92, 34]
            case 92 => e == [92, 92]
            case 8 => e == [92, 98]
            case 12 => e == [92, 102]
            case 10 => e == [92, 110]
            case 13 => e == [92, 114]
            case 9 => e == [92, 116]
            case _ =>
              if c < 32 || (alone && 0xD800 <= c < 0xE000) then
                && |e| == 6 && e[0] == 92 && e[1] == 117 && FourHex(e[2], e[3], e[4], e[5]) == Some(c)
                && forall i :: 2 <= i < 6 ==> 48 <= e[i] <= 57 || 97 <= e[i] <= 102
              else e == [c]
  {
    UnicodeRoundTrip(c);
  }

  /** A surrogate is escaped exactly when its other half is missing. */
  lemma PairsStandForThemselves(s: Text, high: CodeUnit, low: CodeUnit)
    requires HighSurrogate(high) && LowSurrogate(low)
    ensures Escaped([high, low] + s) == [high, low] + Escaped(s)
    ensures s == [] || !LowSurrogate(s[0]) ==> Escaped([high] + s) == EscapeUnit(high, true) + Escaped(s)
    ensures Escaped([low] + s) == EscapeUnit(low, true) + Escaped(s)
  {
    var pair := [high, low] + s;
    assert pair[0] == high && pair[1] == low && pair[2..] == s;
    assert ([high] + s)[1..] == s && ([low] + s)[1..] == s;
    assert [high] + ([low] + Escaped(s)) == [high, low] + Escaped(s);
  }
}
