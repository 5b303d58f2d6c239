/** Bundles built from the texts of skill files, read by the parser of front matter. */
module SkillFiles {
  import opened CanonicalJson
  import opened Graphs
  import opened Options
  import opened OrderedMaps
  import opened Sorting
  import SkillsBundle
  import SkillText

  /** The code units of a text. */
  type Encoding = string -> Text

  ghost predicate Faithful(units: Encoding) {
    forall a, b {:trigger units(a), units(b)} :: units(a) == units(b) ==> a == b
  }

  /** The first `n` entries of a record, as JSON members. */
  function MembersOf(units: Encoding, front: OrderedMap<string, string>, n: nat): seq<Member>
    requires n <= |front.keys| && forall key {:trigger key in front.entries} :: key in front.keys ==>
             key in front.entries
  {
    if n == 0 then []
    else
      var key := front.keys[n - 1];
      MembersOf(units, front, n - 1) + [Member(units(key), String(units(front.entries[key])))]
  }

  ghost function ParseFile(units: Encoding, text: string): SkillsBundle.Parsed {
    var parsed := SkillText.ParseFrontmatter(text);
    SkillText.FrontMatterIsValid(text);
    SkillsBundle.Parsed(MembersOf(units, parsed.frontmatter, |parsed.frontmatter.keys|), units(parsed.body),
        parsed.hasFrontmatter)
  }

  lemma {:induction false} MembersAre(units: Encoding, front: OrderedMap<string, string>, n: nat)
    requires Valid(front) && n <= |front.keys|
    ensures var members := MembersOf(units, front, n);
            && |members| == n
            && forall i {:trigger members[i]} :: 0 <= i < n ==>
                 members[i].key == units(front.keys[i])
                     && members[i].value == String(units(front.entries[front.keys[i]]))
  {
    if n > 0 {
      MembersAre(units, front, n - 1);
    }
  }

  /** The front matter of a file becomes strings under keys that are all different. */
  lemma ParsedIsJson(units: Encoding, text: string)
    requires Faithful(units)
    ensures var front := ParseFile(units, text).frontmatter;
            && DistinctKeys(front)
            && forall i {:trigger front[i]} :: 0 <= i < |front| ==> front[i].value.String?
  {
    var front := SkillText.ParseFrontmatter(text).frontmatter;
    SkillText.FrontMatterIsValid(text);
    MembersAre(units, front, |front.keys|);
    UniqueIsDistinct(front.keys);
  }

  /** A build that reads its files with this parser; what else an entry holds is JSON. */
  ghost predicate ReadsTexts(lib: SkillsBundle.Library<string>, units: Encoding) {
    && Faithful(units)
    && (forall text {:trigger lib.parse(text)} :: lib.parse(text) == ParseFile(units, text))
    && (forall n {:trigger lib.number(n)} :: NumberToken(lib.number(n)))
  }

  ghost predicate JsonReferences(src: SkillsBundle.Source<string>) {
    src.references.Some? ==>
      && DistinctKeys(src.references.value)
      && forall i {:trigger src.references.value[i]} :: 0 <= i < |src.references.value| ==>
          src.references.value[i].value.String?
  }

  lemma BuiltEntryIsJson(lib: SkillsBundle.Library<string>, units: Encoding, src: SkillsBundle.Source<string>,
      now: Text)
    requires ReadsTexts(lib, units) && JsonReferences(src)
    ensures var e := SkillsBundle.EntryOf(lib, src, now);
            && SkillsBundle.JsonParts(e) && DistinctKeys(e.frontmatter)
            && (e.references.Some? ==> DistinctKeys(e.references.value))
  {
    assert lib.parse(src.content) == ParseFile(units, src.content);
    ParsedIsJson(units, src.content);
  }

  lemma EntryHasSource(lib: SkillsBundle.Library<string>, sources: seq<SkillsBundle.Source<string>>, now: Text,
      e: SkillsBundle.Entry)
    returns (n: nat)
    requires e in SkillsBundle.BundleOf(lib, sources, now).entries
    ensures n < |sources| && e == SkillsBundle.EntryOf(lib, sources[n], now)
  {
    var kept := SkillsBundle.Kept(lib, sources);
    var built := SkillsBundle.EntriesOf(lib, kept, now);
    SkillsBundle.NameLeIsTotalPreorder();
    SortByKeepsElements(SkillsBundle.NameLe, built);
    var k :| 0 <= k < |built| && built[k] == e;
    SkillsBundle.KeptMember(lib, sources, kept[k]);
    n :| 0 <= n < |sources| && sources[n] == kept[k];
  }

  /** Every bundle built from texts prints as JSON. */
  lemma BuiltBundleIsJson(lib: SkillsBundle.Library<string>, units: Encoding,
      sources: seq<SkillsBundle.Source<string>>, now: Text)
    requires ReadsTexts(lib, units) && forall i {:trigger sources[i]} :: 0 <= i < |sources| ==>
             JsonReferences(sources[i])
    ensures WellFormed(SkillsBundle.EntriesJson(SkillsBundle.BundleOf(lib, sources, now).entries))
  {
    var entries := SkillsBundle.BundleOf(lib, sources, now).entries;
    forall i | 0 <= i < |entries|
      ensures var e := entries[i];
              && SkillsBundle.JsonParts(e) && DistinctKeys(e.frontmatter)
              && (e.references.Some? ==> DistinctKeys(e.references.value))
    {
      var n := EntryHasSource(lib, sources, now, entries[i]);
      BuiltEntryIsJson(lib, units, sources[n], now);
    }
    SkillsBundle.EntriesAreWellFormed(entries);
  }

  /** Two bundles built from texts have one manifest hash if and only if their entries are the
      same up to the order of keys. */
  lemma BuiltManifestsPin(lib: SkillsBundle.Library<string>, units: Encoding, a: seq<SkillsBundle.Source<string>>,
      b: seq<SkillsBundle.Source<string>>, now: Text, later: Text)
    requires ReadsTexts(lib, units) && SkillsBundle.NoCollisions(lib)
    requires forall i {:trigger a[i]} :: 0 <= i < |a| ==> JsonReferences(a[i])
    requires forall i {:trigger b[i]} :: 0 <= i < |b| ==> JsonReferences(b[i])
    ensures var x, y := SkillsBundle.BundleOf(lib, a, now), SkillsBundle.BundleOf(lib, b, later);
            x.manifestSha256 == y.manifestSha256 <==>
            MeaningOf(SkillsBundle.EntriesJson(x.entries)) == MeaningOf(SkillsBundle.EntriesJson(y.entries))
  {
    BuiltBundleIsJson(lib, units, a, now);
    BuiltBundleIsJson(lib, units, b, later);
    SkillsBundle.ManifestPinsEntries(lib, SkillsBundle.BundleOf(lib, a, now), SkillsBundle.BundleOf(lib, b, later));
  }
}
