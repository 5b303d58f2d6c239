/** The skills bundle: built from the skill files, checked against them, and served in
    their place. */
module SkillsBundle {
  import opened CanonicalJson
  import opened Options
  import opened Selections
  import opened Sorting

  // ---- Skill files ---------------------------------------------------------------------

  /** A file of the walk over the skills; `C` is what a file contains. */
  datatype Source<C> = Source(
    name: Text,
    path: Text,
    subFile: bool,
    content: C,
    references: Option<seq<Member>>,
    largestReference: nat)

  datatype Parsed = Parsed(frontmatter: seq<Member>, body: Text, hasFrontmatter: bool)

  /** What the program takes from elsewhere: the parser of a file, the hash of a file and of
      a text, and sizes in bytes. */
  datatype Library<!C> = Library(
    parse: C -> Parsed,
    hash: C -> Text,
    digest: Text -> Text,
    size: Text -> nat,
    number: nat -> Text,
    bundleSize: Bundle -> nat)

  ghost predicate NoCollisions<C(!new)>(lib: Library<C>) {
    && (forall a, b {:trigger lib.hash(a), lib.hash(b)} :: lib.hash(a) == lib.hash(b) ==> a == b)
    && (forall a, b {:trigger lib.digest(a), lib.digest(b)} :: lib.digest(a) == lib.digest(b) ==> a == b)
  }

  // ---- Bundles --------------------------------------------------------------------------

  datatype Entry = Entry(
    name: Text,
    path: Text,
    frontmatter: seq<Member>,
    body: Text,
    srcSha256: Text,
    sizeBytes: Text,
    bundledAt: Text,
    references: Option<seq<Member>>)

  datatype Bundle = Bundle(manifestSha256: Text, entries: seq<Entry>)

  const NAME: Text := [110, 97, 109, 101]
  const PATH: Text := [112, 97, 116, 104]
  const FRONTMATTER: Text := [102, 114, 111, 110, 116, 109, 97, 116, 116, 101, 114]
  const BODY: Text := [98, 111, 100, 121]
  const SRC_SHA256: Text := [115, 114, 99, 83, 104, 97, 50, 53, 54]
  const SIZE_BYTES: Text := [115, 105, 122, 101, 66, 121, 116, 101, 115]
  const BUNDLED_AT: Text := [98, 117, 110, 100, 108, 101, 100, 65, 116]
  const REFERENCES: Text := [114, 101, 102, 101, 114, 101, 110, 99, 101, 115]

  function EntryJson(e: Entry): Json {
    Object([Member(NAME, String(e.name)), Member(PATH, String(e.path)), Member(FRONTMATTER, Object(e.frontmatter)),
            Member(BODY, String(e.body)), Member(SRC_SHA256, String(e.srcSha256)),
                Member(SIZE_BYTES, Number(e.sizeBytes)),
            Member(BUNDLED_AT, String(e.bundledAt))]
           + if e.references.Some? then [Member(REFERENCES, Object(e.references.value))] else [])
  }

  function EntriesJson(entries: seq<Entry>): Json {
    Array(seq(|entries|, i requires 0 <= i < |entries| => EntryJson(entries[i])))
  }

  function ManifestOf<C>(lib: Library<C>, entries: seq<Entry>): Text {
    lib.digest(CanonicalJSON(EntriesJson(entries)))
  }

  predicate VerifyManifestSha<C>(lib: Library<C>, bundle: Bundle) {
    ManifestOf(lib, bundle.entries) == bundle.manifestSha256
  }

  /** Two bundles that both verify against one manifest hash hold the same entries, up to
      the order of keys. */
  lemma ManifestPinsEntries<C(!new)>(lib: Library<C>, a: Bundle, b: Bundle)
    requires NoCollisions(lib) && VerifyManifestSha(lib, a) && VerifyManifestSha(lib, b)
    requires WellFormed(EntriesJson(a.entries)) && WellFormed(EntriesJson(b.entries))
    ensures a.manifestSha256 == b.manifestSha256 <==>
            MeaningOf(EntriesJson(a.entries)) == MeaningOf(EntriesJson(b.entries))
  {
    SameTextIffSameMeaning(EntriesJson(a.entries), EntriesJson(b.entries));
  }

  /** The parts of an entry are JSON values. */
  predicate JsonParts(e: Entry) {
    && NumberToken(e.sizeBytes)
    && (forall i {:trigger e.frontmatter[i]} :: 0 <= i < |e.frontmatter| ==> e.frontmatter[i].value.String?)
    && (e.references.Some? ==> forall i {:trigger e.references.value[i]} :: 0 <= i < |e.references.value| ==>
        e.references.value[i].value.String?)
  }

  lemma EntryKeysApart(e: Entry)
    ensures DistinctKeys(EntryJson(e).members)
  {
    var ks := [NAME, PATH, FRONTMATTER, BODY, SRC_SHA256, SIZE_BYTES, BUNDLED_AT, REFERENCES];
    assert NAME[0] != PATH[0] && PATH[0] != BODY[0] && NAME[0] != BODY[0];
    assert SRC_SHA256[1] != SIZE_BYTES[1] && SIZE_BYTES[0] != BUNDLED_AT[0];
    assert |FRONTMATTER| == 11 && |REFERENCES| == 10 && |SRC_SHA256| == |SIZE_BYTES| == |BUNDLED_AT| == 9
        && |NAME| == |PATH| == |BODY| == 4;
    assert forall i, j :: 0 <= i < j < 8 ==> ks[i] != ks[j];
    var members := EntryJson(e).members;
    forall i | 0 <= i < |members| ensures members[i].key == ks[i] {
    }
  }

  /** Entries always print as JSON values, so that their manifest hash means something. */
  lemma EntriesAreWellFormed(entries: seq<Entry>)
    requires forall i {:trigger entries[i]} :: 0 <= i < |entries| ==>
               JsonParts(entries[i]) && DistinctKeys(entries[i].frontmatter)
               && (entries[i].references.Some? ==> DistinctKeys(entries[i].references.value))
    ensures WellFormed(EntriesJson(entries))
  {
    forall i | 0 <= i < |entries| ensures WellFormed(EntryJson(entries[i])) {
      EntryKeysApart(entries[i]);
      EntryPartsWellFormed(entries[i]);
    }
  }

  lemma EntryPartsWellFormed(e: Entry)
    requires JsonParts(e) && DistinctKeys(e.frontmatter) && (e.references.Some? ==> DistinctKeys(e.references.value))
    ensures var members := EntryJson(e).members;
            forall i {:trigger members[i]} :: 0 <= i < |members| ==> WellFormed(members[i].value)
  {
    assert WellFormed(Object(e.frontmatter));
    assert e.references.Some? ==> WellFormed(Object(e.references.value));
  }

  // ---- What the JSON of an entry says ------------------------------------------------------

  /** The code units of a plain text. */
  function Ascii(s: string): Text
    requires forall i :: 0 <= i < |s| ==> s[i] < 128 as char
  {
    seq(|s|, i requires 0 <= i < |s| => s[i] as int)
  }

  /** The keys, letter by letter. */
  lemma KeysAreSpelled()
    ensures NAME == Ascii("name") && PATH == Ascii("path") && FRONTMATTER == Ascii("frontmatter")
            && BODY == Ascii("body")
    ensures SRC_SHA256 == Ascii("srcSha256") && SIZE_BYTES == Ascii("sizeBytes") && BUNDLED_AT == Ascii("bundledAt")
    ensures REFERENCES == Ascii("references")
  {
  }

  lemma FieldOf(e: Entry, i: nat, key: Text, value: Json)
    requires i < |EntryJson(e).members| && EntryJson(e).members[i] == Member(key, value)
    ensures var fields := MeaningOf(EntryJson(e)).fields; key in fields && fields[key] == MeaningOf(value)
  {
    EntryKeysApart(e);
    var members := EntryJson(e).members;
    assert Keys(members)[i] == key;
    var j := Find(members, key);
    assert i < j || j < i || i == j;
  }

  lemma NoReferencesField(e: Entry)
    requires e.references.None?
    ensures REFERENCES !in MeaningOf(EntryJson(e)).fields
  {
    assert |REFERENCES| == 10 && |FRONTMATTER| == 11 && |NAME| == |PATH| == |BODY| == 4;
    assert |SRC_SHA256| == |SIZE_BYTES| == |BUNDLED_AT| == 9;
    var ks := Keys(EntryJson(e).members);
    assert ks == [NAME, PATH, FRONTMATTER, BODY, SRC_SHA256, SIZE_BYTES, BUNDLED_AT];
    assert REFERENCES !in ks;
  }

  lemma TextFields(e: Entry)
    ensures var f := MeaningOf(EntryJson(e)).fields;
            && NAME in f && f[NAME] == MString(e.name) && PATH in f && f[PATH] == MString(e.path)
            && BODY in f && f[BODY] == MString(e.body) && SRC_SHA256 in f && f[SRC_SHA256] == MString(e.srcSha256)
            && SIZE_BYTES in f && f[SIZE_BYTES] == MNumber(e.sizeBytes) && BUNDLED_AT in f
                && f[BUNDLED_AT] == MString(e.bundledAt)
  {
    FieldOf(e, 0, NAME, String(e.name));
    FieldOf(e, 1, PATH, String(e.path));
    FieldOf(e, 3, BODY, String(e.body));
    FieldOf(e, 4, SRC_SHA256, String(e.srcSha256));
    FieldOf(e, 5, SIZE_BYTES, Number(e.sizeBytes));
    FieldOf(e, 6, BUNDLED_AT, String(e.bundledAt));
  }

  lemma ObjectFields(e: Entry)
    ensures var f := MeaningOf(EntryJson(e)).fields;
            && FRONTMATTER in f && f[FRONTMATTER] == MeaningOf(Object(e.frontmatter))
            && (REFERENCES in f <==> e.references.Some?)
            && (e.references.Some? ==> f[REFERENCES] == MeaningOf(Object(e.references.value)))
  {
    FieldOf(e, 2, FRONTMATTER, Object(e.frontmatter));
    if e.references.Some? {
      FieldOf(e, 7, REFERENCES, Object(e.references.value));
    } else {
      NoReferencesField(e);
    }
  }

  /** Two entries say the same, up to the order of keys. */
  ghost predicate SameEntry(a: Entry, b: Entry) {
    && a.name == b.name && a.path == b.path && a.body == b.body && a.srcSha256 == b.srcSha256
    && a.sizeBytes == b.sizeBytes && a.bundledAt == b.bundledAt
    && MeaningOf(Object(a.frontmatter)) == MeaningOf(Object(b.frontmatter))
    && a.references.Some? == b.references.Some?
    && (a.references.Some? ==> MeaningOf(Object(a.references.value)) == MeaningOf(Object(b.references.value)))
  }

  /** The JSON of an entry loses nothing. */
  lemma EntryMeaningIff(a: Entry, b: Entry)
    ensures MeaningOf(EntryJson(a)) == MeaningOf(EntryJson(b)) ==> SameEntry(a, b)
  {
    TextFields(a);
    TextFields(b);
    ObjectFields(a);
    ObjectFields(b);
  }

  /** Two bundles that verify with one manifest hash have the same entries, field by field. */
  lemma SameManifestSameEntries<C(!new)>(lib: Library<C>, a: Bundle, b: Bundle)
    requires NoCollisions(lib) && VerifyManifestSha(lib, a) && VerifyManifestSha(lib, b)
    requires WellFormed(EntriesJson(a.entries)) && WellFormed(EntriesJson(b.entries))
    requires a.manifestSha256 == b.manifestSha256
    ensures |a.entries| == |b.entries|
    ensures forall i {:trigger a.entries[i]} {:trigger b.entries[i]} :: 0 <= i < |a.entries| ==>
            SameEntry(a.entries[i], b.entries[i])
  {
    ManifestPinsEntries(lib, a, b);
    var x, y := MeaningOf(EntriesJson(a.entries)).items, MeaningOf(EntriesJson(b.entries)).items;
    assert |x| == |a.entries| && |y| == |b.entries|;
    forall i | 0 <= i < |a.entries| ensures SameEntry(a.entries[i], b.entries[i]) {
      assert x[i] == MeaningOf(EntryJson(a.entries[i])) && y[i] == MeaningOf(EntryJson(b.entries[i]));
      EntryMeaningIff(a.entries[i], b.entries[i]);
    }
  }

  // ---- Building ----------------------------------------------------------------------------

  predicate Skips<C>(lib: Library<C>, src: Source<C>) {
    !lib.parse(src.content).hasFrontmatter && !src.subFile
  }

  function EntryOf<C>(lib: Library<C>, src: Source<C>, now: Text): Entry {
    var parsed := lib.parse(src.content);
    Entry(src.name, src.path, parsed.frontmatter, parsed.body, lib.hash(src.content),
        lib.number(lib.size(parsed.body)), now, src.references)
  }

  /** The files that get an entry, in the order of the walk. */
  function Kept<C>(lib: Library<C>, sources: seq<Source<C>>): seq<Source<C>> {
    if sources == [] then []
    else
      var last := sources[|sources| - 1];
      Kept(lib, sources[..|sources| - 1]) + if Skips(lib, last) then [] else [last]
  }

  function EntriesOf<C>(lib: Library<C>, kept: seq<Source<C>>, now: Text): seq<Entry> {
    seq(|kept|, i requires 0 <= i < |kept| => EntryOf(lib, kept[i], now))
  }

  predicate NameLe(a: Entry, b: Entry) {
    TextLe(a.name, b.name)
  }

  lemma NameLeIsTotalPreorder()
    ensures TotalPreorder(NameLe)
  {
    TextLeIsTotalPreorder();
  }

  datatype Built = Built(bundle: Bundle) | EntryTooLarge(path: Text) | BundleTooLarge(bytes: nat)

  function BundleOf<C>(lib: Library<C>, sources: seq<Source<C>>, now: Text): Bundle {
    var entries := SortBy(NameLe, EntriesOf(lib, Kept(lib, sources), now));
    Bundle(ManifestOf(lib, entries), entries)
  }

  /** The body and every reference of a file fit. */
  predicate Fits<C>(lib: Library<C>, s: Source<C>, maxEntry: nat) {
    lib.size(lib.parse(s.content).body) <= maxEntry && s.largestReference <= maxEntry
  }

  /** The bundle of a walk; the first file with an entry that is too large stops the build. */
  method Build<C>(lib: Library<C>, sources: seq<Source<C>>, now: Text, maxEntry: nat, maxTotal: nat) returns (r: Built)
    ensures r.EntryTooLarge? <==> exists s :: s in Kept(lib, sources) && !Fits(lib, s, maxEntry)
    ensures r.EntryTooLarge? ==>
              exists i {:trigger sources[i]} :: 0 <= i < |sources| && r.path == sources[i].path
                  && !Skips(lib, sources[i])
                && !Fits(lib, sources[i], maxEntry) && forall s :: s in Kept(lib, sources[..i]) ==>
                    Fits(lib, s, maxEntry)
    ensures !r.EntryTooLarge? ==>
              var size := lib.bundleSize(BundleOf(lib, sources, now));
              r == if size <= maxTotal then Built(BundleOf(lib, sources, now)) else BundleTooLarge(size)
  {
    var entries: seq<Entry> := [];
    for i := 0 to |sources|
      invariant entries == EntriesOf(lib, Kept(lib, sources[..i]), now)
      invariant forall s :: s in Kept(lib, sources[..i]) ==> Fits(lib, s, maxEntry)
    {
      var src := sources[i];
      KeptGrows(lib, sources, i);
      var parsed := lib.parse(src.content);
      if !parsed.hasFrontmatter && !src.subFile {
        continue;
      }
      if lib.size(parsed.body) > maxEntry || src.largestReference > maxEntry {
        KeptMonotone(lib, sources, i + 1, src);
        return EntryTooLarge(src.path);
      }
      entries := entries + [Entry(src.name, src.path, parsed.frontmatter, parsed.body, lib.hash(src.content),
                                  lib.number(lib.size(parsed.body)), now, src.references)];
    }
    assert sources[..|sources|] == sources;
    entries := SortBy(NameLe, entries);
    var bundle := Bundle(lib.digest(CanonicalJSON(EntriesJson(entries))), entries);
    if lib.bundleSize(bundle) > maxTotal {
      return BundleTooLarge(lib.bundleSize(bundle));
    }
    return Built(bundle);
  }

  /** The entry says what its file says. */
  ghost predicate EntryFrom<C>(lib: Library<C>, e: Entry, s: Source<C>, now: Text) {
    && e.name == s.name && e.path == s.path && e.references == s.references && e.bundledAt == now
    && e.frontmatter == lib.parse(s.content).frontmatter && e.body == lib.parse(s.content).body
    && e.srcSha256 == lib.hash(s.content) && e.sizeBytes == lib.number(lib.size(lib.parse(s.content).body))
  }

  lemma {:induction false} KeptPicks<C>(lib: Library<C>, sources: seq<Source<C>>) returns (at: seq<nat>)
    ensures Chosen(at, |sources|) && |at| == |Kept(lib, sources)|
    ensures forall j {:trigger at[j]} :: 0 <= j < |at| ==> sources[at[j]] == Kept(lib, sources)[j]
    ensures forall i {:trigger sources[i]} :: 0 <= i < |sources| ==>
              (i in at <==> lib.parse(sources[i].content).hasFrontmatter || sources[i].subFile)
  {
    at := [];
    if sources != [] {
      var front, last := sources[..|sources| - 1], sources[|sources| - 1];
      var before := KeptPicks(lib, front);
      ChooseNext(before, |front|);
      at := if Skips(lib, last) then before else before + [|front|];
      forall i {:trigger sources[i]} | 0 <= i < |sources|
        ensures i in at <==> lib.parse(sources[i].content).hasFrontmatter || sources[i].subFile
      {
        TakenOrNot(before, |front|, i, !Skips(lib, last));
        assert i < |front| ==> sources[i] == front[i];
      }
      forall j | 0 <= j < |at| ensures sources[at[j]] == Kept(lib, sources)[j] {
        assert j < |before| ==> front[before[j]] == Kept(lib, front)[j];
      }
    }
  }

  /** A bundle has one entry for each file that has front matter or stands in the start
      directory, with all that the file says, in the order of their names. */
  lemma BundleSays<C(!new)>(lib: Library<C>, sources: seq<Source<C>>, now: Text)
      returns (at: seq<nat>, built: seq<Entry>)
    ensures Chosen(at, |sources|) && |at| == |built|
    ensures forall j {:trigger at[j]} :: 0 <= j < |at| ==> EntryFrom(lib, built[j], sources[at[j]], now)
    ensures forall i {:trigger sources[i]} :: 0 <= i < |sources| ==>
              (i in at <==> lib.parse(sources[i].content).hasFrontmatter || sources[i].subFile)
    ensures var bundle := BundleOf(lib, sources, now);
            && VerifyManifestSha(lib, bundle) && multiset(bundle.entries) == multiset(built)
            && forall i, j {:trigger bundle.entries[i], bundle.entries[j]} :: 0 <= i < j < |bundle.entries| ==>
                 bundle.entries[i].name == bundle.entries[j].name
                     || Precedes(bundle.entries[i].name, bundle.entries[j].name)
  {
    at := KeptPicks(lib, sources);
    built := EntriesOf(lib, Kept(lib, sources), now);
    NameLeIsTotalPreorder();
    SortBySorts(NameLe, built);
    var entries := SortBy(NameLe, built);
    forall i, j {:trigger entries[i], entries[j]} | 0 <= i < j < |entries|
      ensures entries[i].name == entries[j].name || Precedes(entries[i].name, entries[j].name)
    {
      assert NameLe(entries[i], entries[j]);
      TextLeMeans(entries[i].name, entries[j].name);
    }
  }

  lemma KeptGrows<C>(lib: Library<C>, sources: seq<Source<C>>, i: nat)
    requires i < |sources|
    ensures Kept(lib, sources[..i + 1]) == Kept(lib, sources[..i]) + if Skips(lib, sources[i]) then [] else [sources[i]]
  {
    assert sources[..i + 1][..i] == sources[..i];
  }

  lemma {:induction false} KeptMonotone<C>(lib: Library<C>, sources: seq<Source<C>>, i: nat, s: Source<C>)
    requires i <= |sources| && s in Kept(lib, sources[..i])
    ensures s in Kept(lib, sources)
    decreases |sources| - i
  {
    if i < |sources| {
      KeptGrows(lib, sources, i);
      KeptMonotone(lib, sources, i + 1, s);
    } else {
      assert sources[..i] == sources;
    }
  }

  lemma {:induction false} KeptMember<C>(lib: Library<C>, sources: seq<Source<C>>, s: Source<C>)
    ensures s in Kept(lib, sources) <==> s in sources && !Skips(lib, s)
  {
    if sources != [] {
      KeptMember(lib, sources[..|sources| - 1], s);
      assert s in sources <==> s in sources[..|sources| - 1] || s == sources[|sources| - 1];
    }
  }
}
