/** The canonical JSON text of a value: object keys sorted, nothing else added. */
module CanonicalJson {
  import opened JsonStrings
  import opened Options
  import opened Sorting

  /** A number is the text that `JSON.stringify` gives it; object members are in the order
      in which they were added. */
  datatype Json =
    | Null
    | Bool(b: bool)
    | Number(token: Text)
    | String(s: Text)
    | Array(items: seq<Json>)
    | Object(members: seq<Member>)

  datatype Member = Member(key: Text, value: Json)

  const OPEN_BRACKET: CodeUnit := 91
  const CLOSE_BRACKET: CodeUnit := 93
  const OPEN_BRACE: CodeUnit := 123
  const CLOSE_BRACE: CodeUnit := 125
  const COMMA: CodeUnit := 44
  const COLON: CodeUnit := 58

  const NULL: Text := [110, 117, 108, 108]
  const TRUE: Text := [116, 114, 117, 101]
  const FALSE: Text := [102, 97, 108, 115, 101]

  /** Digits, signs, the dot and the exponent. */
  predicate NumberUnit(c: CodeUnit) {
    48 <= c <= 57 || c == 43 || c == 45 || c == 46 || c == 69 || c == 101
  }

  predicate NumberToken(t: Text) {
    t != [] && (48 <= t[0] <= 57 || t[0] == 45) && forall i :: 0 <= i < |t| ==> NumberUnit(t[i])
  }

  function Keys(members: seq<Member>): seq<Text> {
    seq(|members|, i requires 0 <= i < |members| => members[i].key)
  }

  ghost predicate DistinctKeys(members: seq<Member>) {
    forall i, j {:trigger members[i], members[j]} :: 0 <= i < j < |members| ==> members[i].key != members[j].key
  }

  /** Numbers are tokens and no object has a key twice. */
  ghost predicate WellFormed(v: Json) {
    match v
    case Number(token) => NumberToken(token)
    case Array(items) => forall i {:trigger items[i]} :: 0 <= i < |items| ==> WellFormed(items[i])
    case Object(members) => DistinctKeys(members) && forall i {:trigger members[i]} :: 0 <= i < |members| ==>
        WellFormed(members[i].value)
    case _ => true
  }

  /** `obj[key]` */
  function Find(members: seq<Member>, key: Text): (i: nat)
    requires key in Keys(members)
    ensures i < |members| && members[i].key == key
  {
    if members[0].key == key then 0
    else
      assert Keys(members)[1..] == Keys(members[1..]);
      1 + Find(members[1..], key)
  }

  function SortedKeys(members: seq<Member>): seq<Text> {
    SortBy(TextLe, Keys(members))
  }

  ghost predicate AllIn(ks: seq<Text>, members: seq<Member>) {
    forall i {:trigger ks[i]} :: 0 <= i < |ks| ==> ks[i] in Keys(members)
  }

  lemma SortedKeysAreIn(members: seq<Member>)
    ensures AllIn(SortedKeys(members), members)
  {
    TextLeIsTotalPreorder();
    SortByKeepsElements(TextLe, Keys(members));
  }

  // ---- Writing --------------------------------------------------------------------

  function CanonicalJSON(v: Json): Text
    decreases v, 1, 0
  {
    match v
    case Null => NULL
    case Bool(b) => if b then TRUE else FALSE
    case Number(token) => token
    case String(s) => Quote(s)
    case Array(items) => [OPEN_BRACKET] + (ItemsText(v, 0) + [CLOSE_BRACKET])
    case Object(members) =>
      SortedKeysAreIn(members);
      [OPEN_BRACE] + (MembersText(v, SortedKeys(members)) + [CLOSE_BRACE])
  }

  /** The items from position `i` on, joined by commas. */
  function ItemsText(v: Json, i: nat): Text
    requires v.Array? && i <= |v.items|
    decreases v, 0, |v.items| - i
  {
    if i == |v.items| then []
    else if i + 1 == |v.items| then CanonicalJSON(v.items[i])
    else CanonicalJSON(v.items[i]) + ([COMMA] + ItemsText(v, i + 1))
  }

  function MemberText(v: Json, key: Text): Text
    requires v.Object? && key in Keys(v.members)
    decreases v, 0, 0
  {
    Quote(key) + ([COLON] + CanonicalJSON(v.members[Find(v.members, key)].value))
  }

  function MembersText(v: Json, ks: seq<Text>): Text
    requires v.Object? && AllIn(ks, v.members)
    decreases v, 0, |ks|
  {
    if ks == [] then []
    else
      assert ks[0] in Keys(v.members);
      if |ks| == 1 then MemberText(v, ks[0])
      else
        assert AllIn(ks[1..], v.members) by { assert forall i {:trigger ks[1..][i]} :: 0 <= i < |ks| - 1 ==>
            ks[1..][i] == ks[i + 1]; }
        MemberText(v, ks[0]) + ([COMMA] + MembersText(v, ks[1..]))
  }

  // ---- What a value is, whatever the order of its keys ---------------------------------

  datatype Meaning =
    | MNull
    | MBool(b: bool)
    | MNumber(token: Text)
    | MString(s: Text)
    | MArray(items: seq<Meaning>)
    | MObject(fields: map<Text, Meaning>)

  function MeaningOf(v: Json): Meaning {
    match v
    case Null => MNull
    case Bool(b) => MBool(b)
    case Number(token) => MNumber(token)
    case String(s) => MString(s)
    case Array(items) => MArray(seq(|items|, i requires 0 <= i < |items| => MeaningOf(items[i])))
    case Object(members) => MObject(map k | k in Keys(members) :: MeaningOf(members[Find(members, k)].value))
  }

  // ---- Reading --------------------------------------------------------------------------

  function NumberSpan(t: Text): (n: nat)
    ensures n <= |t|
  {
    if t != [] && NumberUnit(t[0]) then 1 + NumberSpan(t[1..]) else 0
  }

  function StartsWith(t: Text, word: Text): bool {
    |word| <= |t| && t[..|word|] == word
  }

  /** The value that a text starts with, its keys in the order in which they stand, and what
      follows it. No space is allowed anywhere. */
  function ParseValue(t: Text): (r: Option<(Json, Text)>)
    ensures r.Some? ==> |r.value.1| < |t|
    decreases |t|, 0
  {
    if t == [] then None
    else if t[0] == OPEN_BRACE then
      if |t| > 1 && t[1] == CLOSE_BRACE then Some((Object([]), t[2..])) else ParseMembers(t[1..], [])
    else if t[0] == OPEN_BRACKET then
      if |t| > 1 && t[1] == CLOSE_BRACKET then Some((Array([]), t[2..])) else ParseItems(t[1..], [])
    else if t[0] == QUOTE then
      var s := ReadString(t[1..]);
      if s.None? then None else Some((String(s.value.0), s.value.1))
    else if StartsWith(t, NULL) then Some((Null, t[4..]))
    else if StartsWith(t, TRUE) then Some((Bool(true), t[4..]))
    else if StartsWith(t, FALSE) then Some((Bool(false), t[5..]))
    else
      var n := NumberSpan(t);
      if n == 0 then None else Some((Number(t[..n]), t[n..]))
  }

  function ParseItems(t: Text, items: seq<Json>): (r: Option<(Json, Text)>)
    ensures r.Some? ==> |r.value.1| < |t|
    decreases |t|, 1
  {
    var item := ParseValue(t);
    if item.None? || item.value.1 == [] then None
    else
      var rest := item.value.1;
      if rest[0] == CLOSE_BRACKET then Some((Array(items + [item.value.0]), rest[1..]))
      else if rest[0] == COMMA then ParseItems(rest[1..], items + [item.value.0])
      else None
  }

  function ParseMembers(t: Text, members: seq<Member>): (r: Option<(Json, Text)>)
    ensures r.Some? ==> |r.value.1| < |t|
    decreases |t|, 1
  {
    if t == [] || t[0] != QUOTE then None
    else
      var key := ReadString(t[1..]);
      if key.None? || key.value.1 == [] || key.value.1[0] != COLON then None
      else
        var item := ParseValue(key.value.1[1..]);
        if item.None? || item.value.1 == [] then None
        else
          var rest, more := item.value.1, members + [Member(key.value.0, item.value.0)];
          if rest[0] == CLOSE_BRACE then Some((Object(more), rest[1..]))
          else if rest[0] == COMMA then ParseMembers(rest[1..], more)
          else None
  }

  /** The value with its keys in ascending order, at every depth. */
  function Ordered(v: Json): Json
    decreases v, 1, 0
  {
    match v
    case Array(items) => Array(OrderedItems(v, 0))
    case Object(members) =>
      SortedKeysAreIn(members);
      Object(OrderedMembers(v, SortedKeys(members)))
    case _ => v
  }

  function OrderedItems(v: Json, i: nat): seq<Json>
    requires v.Array? && i <= |v.items|
    decreases v, 0, |v.items| - i
  {
    if i == |v.items| then [] else [Ordered(v.items[i])] + OrderedItems(v, i + 1)
  }

  function OrderedMembers(v: Json, ks: seq<Text>): seq<Member>
    requires v.Object? && AllIn(ks, v.members)
    decreases v, 0, |ks|
  {
    if ks == [] then []
    else
      assert ks[0] in Keys(v.members);
      assert AllIn(ks[1..], v.members) by { assert forall i {:trigger ks[1..][i]} :: 0 <= i < |ks| - 1 ==>
          ks[1..][i] == ks[i + 1]; }
      [Member(ks[0], Ordered(v.members[Find(v.members, ks[0])].value))] + OrderedMembers(v, ks[1..])
  }

  // ---- Reading what was written ------------------------------------------------------------

  /** What can follow a value. */
  predicate Follows(t: Text) {
    t == [] || t[0] == COMMA || t[0] == CLOSE_BRACKET || t[0] == CLOSE_BRACE
  }

  lemma {:induction false} NumberSpanOfToken(token: Text, rest: Text)
    requires (forall i :: 0 <= i < |token| ==> NumberUnit(token[i])) && Follows(rest)
    ensures NumberSpan(token + rest) == |token|
  {
    if token == [] {
      assert token + rest == rest;
    } else {
      assert (token + rest)[1..] == token[1..] + rest;
      NumberSpanOfToken(token[1..], rest);
    }
  }

  lemma ReadsNumber(token: Text, rest: Text)
    requires NumberToken(token) && Follows(rest)
    ensures ParseValue(token + rest) == Some((Number(token), rest))
  {
    var t := token + rest;
    NumberSpanOfToken(token, rest);
    assert t[0] == token[0] && t[..|token|] == token && t[|token|..] == rest;
  }

  lemma ReadsWord(word: Text, rest: Text)
    requires word == NULL || word == TRUE || word == FALSE
    ensures ParseValue(word + rest) == Some((if word == NULL then Null else Bool(word == TRUE), rest))
  {
    var t := word + rest;
    assert t[0] == word[0] && t[..|word|] == word && t[|word|..] == rest;
  }

  lemma ReadsString(s: Text, rest: Text)
    ensures ParseValue(Quote(s) + rest) == Some((String(s), rest))
  {
    QuoteRoundTrip(s, rest);
    var t := Quote(s) + rest;
    assert t[1..] == Escaped(s) + ([QUOTE] + rest);
  }

  /** A value starts with none of the marks that close or separate. */
  lemma StartsValue(v: Json, rest: Text)
    requires WellFormed(v)
    ensures var t := CanonicalJSON(v) + rest;
            t != [] && t[0] != CLOSE_BRACKET && t[0] != CLOSE_BRACE && t[0] != COMMA
  {
  }

  /** Reading a canonical text gives the value back, with its keys in order. */
  lemma {:induction false} ReadsValue(v: Json, rest: Text)
    requires WellFormed(v) && Follows(rest)
    ensures ParseValue(CanonicalJSON(v) + rest) == Some((Ordered(v), rest))
    decreases v, 1, 0
  {
    match v
    case Null => ReadsWord(NULL, rest);
    case Bool(b) => ReadsWord(if b then TRUE else FALSE, rest);
    case Number(token) => ReadsNumber(token, rest);
    case String(s) => ReadsString(s, rest);
    case Array(items) => ReadsArray(v, rest);
    case Object(members) => ReadsObject(v, rest);
  }

  lemma {:induction false} ReadsArray(v: Json, rest: Text)
    requires v.Array? && WellFormed(v)
    ensures ParseValue(CanonicalJSON(v) + rest) == Some((Ordered(v), rest))
    decreases v, 0, |v.items| + 1
  {
    var end := [CLOSE_BRACKET] + rest;
    var t := CanonicalJSON(v) + rest;
    assert t == [OPEN_BRACKET] + (ItemsText(v, 0) + end) by {
      Regroup([OPEN_BRACKET], ItemsText(v, 0), [CLOSE_BRACKET], rest);
    }
    assert t[1..] == ItemsText(v, 0) + end;
    if v.items == [] {
      assert t == [OPEN_BRACKET] + end && t[2..] == rest;
    } else {
      ItemsStart(v, 0, end);
      ReadsItems(v, 0, [], rest);
      assert [] + OrderedItems(v, 0) == OrderedItems(v, 0);
    }
  }

  lemma ItemsStart(v: Json, i: nat, end: Text)
    requires v.Array? && WellFormed(v) && i < |v.items|
    ensures ItemsText(v, i) + end != [] && (ItemsText(v, i) + end)[0] != CLOSE_BRACKET
  {
    StartsValue(v.items[i], []);
    assert CanonicalJSON(v.items[i]) + [] == CanonicalJSON(v.items[i]);
  }

  lemma {:induction false} ReadsItems(v: Json, i: nat, items: seq<Json>, rest: Text)
    requires v.Array? && WellFormed(v) && i < |v.items|
    ensures ParseItems(ItemsText(v, i) + ([CLOSE_BRACKET] + rest), items)
            == Some((Array(items + OrderedItems(v, i)), rest))
    decreases v, 0, |v.items| - i
  {
    var end := [CLOSE_BRACKET] + rest;
    var item := v.items[i];
    if i + 1 == |v.items| {
      ReadsValue(item, end);
      assert end[1..] == rest;
      assert OrderedItems(v, i) == [Ordered(item)];
    } else {
      var tail := ItemsText(v, i + 1) + end;
      ReadsValue(item, [COMMA] + tail);
      Regroup(CanonicalJSON(item), [COMMA], ItemsText(v, i + 1), end);
      assert ([COMMA] + tail)[1..] == tail;
      ReadsItems(v, i + 1, items + [Ordered(item)], rest);
      assert (items + [Ordered(item)]) + OrderedItems(v, i + 1) == items + OrderedItems(v, i);
    }
  }

  lemma {:induction false} ReadsObject(v: Json, rest: Text)
    requires v.Object? && WellFormed(v)
    ensures ParseValue(CanonicalJSON(v) + rest) == Some((Ordered(v), rest))
    decreases v, 0, |v.members| + 1
  {
    var ks, end := SortedKeys(v.members), [CLOSE_BRACE] + rest;
    SortedKeysAreIn(v.members);
    var t := CanonicalJSON(v) + rest;
    assert t == [OPEN_BRACE] + (MembersText(v, ks) + end) by {
      Regroup([OPEN_BRACE], MembersText(v, ks), [CLOSE_BRACE], rest);
    }
    assert t[1..] == MembersText(v, ks) + end;
    SortedKeysAll(v.members);
    if ks == [] {
      assert t == [OPEN_BRACE] + end && t[2..] == rest;
    } else {
      MembersStart(v, ks, end);
      ReadsMembers(v, ks, [], rest);
      assert [] + OrderedMembers(v, ks) == OrderedMembers(v, ks);
    }
  }

  lemma SortedKeysAll(members: seq<Member>)
    ensures |SortedKeys(members)| == |members|
    ensures forall k :: k in SortedKeys(members) <==> k in Keys(members)
  {
    TextLeIsTotalPreorder();
    SortByKeepsElements(TextLe, Keys(members));
  }

  lemma MembersStart(v: Json, ks: seq<Text>, end: Text)
    requires v.Object? && ks != [] && AllIn(ks, v.members)
    ensures MembersText(v, ks) + end != [] && (MembersText(v, ks) + end)[0] == QUOTE
  {
    assert ks[0] in Keys(v.members);
  }

  lemma {:induction false} ReadsMembers(v: Json, ks: seq<Text>, members: seq<Member>, rest: Text)
    requires v.Object? && WellFormed(v) && ks != [] && AllIn(ks, v.members)
    ensures ParseMembers(MembersText(v, ks) + ([CLOSE_BRACE] + rest), members) ==
            Some((Object(members + OrderedMembers(v, ks)), rest))
    decreases v, 0, |ks|
  {
    var end := [CLOSE_BRACE] + rest;
    var key := ks[0];
    assert ks[0] in Keys(v.members);
    var value := v.members[Find(v.members, key)].value;
    var first := Member(key, Ordered(value));
    if |ks| == 1 {
      ReadsValue(value, end);
      ReadsKey(key, CanonicalJSON(value), end);
      assert end[1..] == rest;
      assert OrderedMembers(v, ks) == [first];
    } else {
      var more := ks[1..];
      assert forall i {:trigger more[i]} :: 0 <= i < |more| ==> more[i] == ks[i + 1];
      var tail := MembersText(v, more) + end;
      ReadsValue(value, [COMMA] + tail);
      ReadsKey(key, CanonicalJSON(value), [COMMA] + tail);
      Regroup(MemberText(v, key), [COMMA], MembersText(v, more), end);
      assert ([COMMA] + tail)[1..] == tail;
      ReadsMembers(v, more, members + [first], rest);
      assert (members + [first]) + OrderedMembers(v, more) == members + OrderedMembers(v, ks);
    }
  }

  lemma KeyShape<T>(quote: T, key: seq<T>, colon: T, text: seq<T>, end: seq<T>)
    ensures var t := (([quote] + (key + [quote])) + ([colon] + text)) + end;
            t[0] == quote && t[1..] == key + ([quote] + ([colon] + (text + end)))
  {
  }

  lemma ReadsKey(key: Text, text: Text, end: Text)
    ensures var t := (Quote(key) + ([COLON] + text)) + end;
            t[0] == QUOTE && ReadString(t[1..]) == Some((key, [COLON] + (text + end)))
  {
    QuoteRoundTrip(key, [COLON] + (text + end));
    KeyShape(QUOTE, Escaped(key), COLON, text, end);
  }

  // ---- The order of the keys ---------------------------------------------------------------

  /** The keys of every object, at every depth, are in strictly ascending order. */
  ghost predicate Ascending(v: Json) {
    match v
    case Array(items) => forall i {:trigger items[i]} :: 0 <= i < |items| ==> Ascending(items[i])
    case Object(members) =>
      && (forall i, j {:trigger members[i], members[j]} :: 0 <= i < j < |members| ==>
          Precedes(members[i].key, members[j].key))
      && (forall i {:trigger members[i]} :: 0 <= i < |members| ==> Ascending(members[i].value))
    case _ => true
  }

  lemma {:induction false} OrderedItemsAre(v: Json, i: nat)
    requires v.Array? && i <= |v.items|
    ensures |OrderedItems(v, i)| == |v.items| - i
    ensures forall j {:trigger OrderedItems(v, i)[j]} :: 0 <= j < |v.items| - i ==>
            OrderedItems(v, i)[j] == Ordered(v.items[i + j])
    decreases |v.items| - i
  {
    if i < |v.items| {
      OrderedItemsAre(v, i + 1);
      forall j | 0 <= j < |v.items| - i ensures OrderedItems(v, i)[j] == Ordered(v.items[i + j]) {
        if j > 0 {
          assert OrderedItems(v, i)[j] == OrderedItems(v, i + 1)[j - 1];
        }
      }
    }
  }

  lemma {:induction false} OrderedMembersAre(v: Json, ks: seq<Text>)
    requires v.Object? && AllIn(ks, v.members)
    ensures |OrderedMembers(v, ks)| == |ks|
    ensures forall j {:trigger OrderedMembers(v, ks)[j]} :: 0 <= j < |ks| ==>
              && ks[j] in Keys(v.members)
              && OrderedMembers(v, ks)[j] == Member(ks[j], Ordered(v.members[Find(v.members, ks[j])].value))
    decreases |ks|
  {
    if ks != [] {
      var more := ks[1..];
      assert ks[0] in Keys(v.members);
      assert forall i {:trigger more[i]} :: 0 <= i < |more| ==> more[i] == ks[i + 1];
      OrderedMembersAre(v, more);
      forall j | 0 <= j < |ks|
        ensures && ks[j] in Keys(v.members)
                && OrderedMembers(v, ks)[j] == Member(ks[j], Ordered(v.members[Find(v.members, ks[j])].value))
      {
        if j > 0 {
          assert OrderedMembers(v, ks)[j] == OrderedMembers(v, more)[j - 1] && more[j - 1] == ks[j];
        }
      }
    }
  }

  lemma SortedKeysAscend(members: seq<Member>)
    requires DistinctKeys(members)
    ensures var ks := SortedKeys(members);
            forall i, j {:trigger ks[i], ks[j]} :: 0 <= i < j < |ks| ==> Precedes(ks[i], ks[j])
  {
    var ks := SortedKeys(members);
    TextLeIsTotalPreorder();
    SortBySorts(TextLe, Keys(members));
    forall i, j | 0 <= i < j < |ks| ensures Precedes(ks[i], ks[j]) {
      KeysOccurOnce(members, ks[i]);
      assert multiset(ks)[ks[i]] == multiset(Keys(members))[ks[i]];
      OccursTwice(ks, i, j);
      TextLeMeans(ks[i], ks[j]);
    }
  }

  lemma OccursTwice(ks: seq<Text>, i: nat, j: nat)
    requires i < j < |ks| && multiset(ks)[ks[i]] <= 1
    ensures ks[i] != ks[j]
  {
    var a, b := ks[..j], ks[j..];
    assert ks == a + b;
    assert a[i] == ks[i] && b[0] == ks[j];
  }

  /** Putting the keys in order makes them ascend and changes nothing else. */
  lemma {:induction false} OrderedAscends(v: Json)
    requires WellFormed(v)
    ensures Ascending(Ordered(v)) && MeaningOf(Ordered(v)) == MeaningOf(v)
  {
    match v
    case Array(items) =>
      OrderedItemsAre(v, 0);
      forall i | 0 <= i < |items|
        ensures Ascending(Ordered(items[i])) && MeaningOf(Ordered(items[i])) == MeaningOf(items[i]) {
        OrderedAscends(items[i]);
      }
      assert MeaningOf(Ordered(v)).items == MeaningOf(v).items;
    case Object(members) =>
      SortedKeysAreIn(members);
      forall i | 0 <= i < |members|
        ensures Ascending(Ordered(members[i].value))
                && MeaningOf(Ordered(members[i].value)) == MeaningOf(members[i].value)
      {
        OrderedAscends(members[i].value);
      }
      OrderedObject(v);
    case _ =>
  }

  lemma OrderedObject(v: Json)
    requires v.Object? && WellFormed(v) && AllIn(SortedKeys(v.members), v.members)
    requires forall i {:trigger v.members[i]} :: 0 <= i < |v.members| ==>
               Ascending(Ordered(v.members[i].value))
                   && MeaningOf(Ordered(v.members[i].value)) == MeaningOf(v.members[i].value)
    ensures Ascending(Ordered(v)) && MeaningOf(Ordered(v)) == MeaningOf(v)
  {
    var ks := SortedKeys(v.members);
    var members := OrderedMembers(v, ks);
    OrderedMembersAre(v, ks);
    SortedKeysAll(v.members);
    SortedKeysAscend(v.members);
    forall i, j | 0 <= i < j < |members| ensures Precedes(members[i].key, members[j].key) {
      assert members[i].key == ks[i] && members[j].key == ks[j];
    }
    forall k ensures k in Keys(members) <==> k in Keys(v.members) {
      assert forall i :: 0 <= i < |members| ==> Keys(members)[i] == ks[i];
      assert Keys(members) == ks;
    }
    forall k | k in Keys(members)
      ensures MeaningOf(members[Find(members, k)].value) == MeaningOf(v.members[Find(v.members, k)].value)
    {
      assert members[Find(members, k)].key == k;
    }
    assert MeaningOf(Ordered(v)).fields == MeaningOf(v).fields;
  }

  /** The canonical text reads as a value that means the same and whose keys ascend strictly by
      code units, at every depth; and there is nothing in it but that value. */
  lemma TextHasKeysInOrder(v: Json) returns (w: Json)
    requires WellFormed(v)
    ensures ParseValue(CanonicalJSON(v)) == Some((w, [])) && Ascending(w) && MeaningOf(w) == MeaningOf(v)
  {
    ReadsValue(v, []);
    assert CanonicalJSON(v) + [] == CanonicalJSON(v);
    w := Ordered(v);
    OrderedAscends(v);
  }

  // ---- The same text exactly for the same value -----------------------------------------------

  lemma {:induction false} KeysOccurOnce(members: seq<Member>, k: Text)
    requires DistinctKeys(members)
    ensures multiset(Keys(members))[k] == if k in Keys(members) then 1 else 0
  {
    if members != [] {
      var rest := members[1..];
      assert DistinctKeys(rest) by {
        assert forall i {:trigger rest[i]} :: 0 <= i < |rest| ==> rest[i] == members[i + 1];
      }
      KeysOccurOnce(rest, k);
      assert Keys(members) == [members[0].key] + Keys(rest);
      forall i | 0 <= i < |Keys(rest)| ensures Keys(rest)[i] != members[0].key {
        assert members[0].key != members[i + 1].key;
      }
    }
  }

  lemma SameKeysSortAlike(a: seq<Member>, b: seq<Member>)
    requires DistinctKeys(a) && DistinctKeys(b) && forall k :: k in Keys(a) <==> k in Keys(b)
    ensures SortedKeys(a) == SortedKeys(b)
  {
    forall k ensures multiset(Keys(a))[k] == multiset(Keys(b))[k] {
      KeysOccurOnce(a, k);
      KeysOccurOnce(b, k);
    }
    assert multiset(Keys(a)) == multiset(Keys(b));
    TextLeIsTotalPreorder();
    SortBySorts(TextLe, Keys(a));
    SortBySorts(TextLe, Keys(b));
    TextLeIsAntisymmetric();
    SortedIsUnique(TextLe, SortedKeys(a), SortedKeys(b));
  }

  /** Values that mean the same have the same text, whatever the order of their keys. */
  lemma {:induction false} SameMeaningSameText(a: Json, b: Json)
    requires WellFormed(a) && WellFormed(b) && MeaningOf(a) == MeaningOf(b)
    ensures CanonicalJSON(a) == CanonicalJSON(b)
    decreases a, 1, 0
  {
    match a
    case Null =>
    case Bool(_) =>
    case Number(_) =>
    case String(_) =>
    case Array(items) =>
      assert |items| == |MeaningOf(a).items| == |MeaningOf(b).items| == |b.items|;
      SameItems(a, b, 0);
    case Object(members) =>
      forall k ensures k in Keys(members) <==> k in Keys(b.members) {
        assert k in MeaningOf(a).fields <==> k in MeaningOf(b).fields;
      }
      SameKeysSortAlike(members, b.members);
      SortedKeysAreIn(members);
      SameMembers(a, b, SortedKeys(members));
  }

  lemma {:induction false} SameItems(a: Json, b: Json, i: nat)
    requires a.Array? && b.Array? && WellFormed(a) && WellFormed(b) && MeaningOf(a) == MeaningOf(b)
    requires |a.items| == |b.items| && i <= |a.items|
    ensures ItemsText(a, i) == ItemsText(b, i)
    decreases a, 0, |a.items| - i
  {
    if i < |a.items| {
      assert MeaningOf(a).items[i] == MeaningOf(b).items[i];
      SameMeaningSameText(a.items[i], b.items[i]);
      SameItems(a, b, i + 1);
    }
  }

  lemma {:induction false} SameMembers(a: Json, b: Json, ks: seq<Text>)
    requires a.Object? && b.Object? && WellFormed(a) && WellFormed(b) && MeaningOf(a) == MeaningOf(b)
    requires AllIn(ks, a.members) && AllIn(ks, b.members)
    ensures MembersText(a, ks) == MembersText(b, ks)
    decreases a, 0, |ks|
  {
    if ks != [] {
      var key, more := ks[0], ks[1..];
      assert ks[0] in Keys(a.members) && ks[0] in Keys(b.members);
      var x, y := a.members[Find(a.members, key)].value, b.members[Find(b.members, key)].value;
      assert MeaningOf(a).fields[key] == MeaningOf(x) && MeaningOf(b).fields[key] == MeaningOf(y);
      SameMeaningSameText(x, y);
      assert forall i {:trigger more[i]} :: 0 <= i < |more| ==> more[i] == ks[i + 1];
      SameMembers(a, b, more);
    }
  }

  /** The canonical texts of two values are equal if and only if the values are the same up
      to the order of their keys, at every depth. */
  lemma SameTextIffSameMeaning(a: Json, b: Json)
    requires WellFormed(a) && WellFormed(b)
    ensures CanonicalJSON(a) == CanonicalJSON(b) <==> MeaningOf(a) == MeaningOf(b)
  {
    ReadsValue(a, []);
    ReadsValue(b, []);
    assert CanonicalJSON(a) + [] == CanonicalJSON(a) && CanonicalJSON(b) + [] == CanonicalJSON(b);
    OrderedAscends(a);
    OrderedAscends(b);
    if MeaningOf(a) == MeaningOf(b) {
      SameMeaningSameText(a, b);
    }
  }
}
