/** The check of a bundle against the skill files. */
module SkillsCheck {
  import opened CanonicalJson
  import opened Options
  import opened SkillsBundle
  import opened SkillsServing
  import opened SkillsWalk
  import opened Sorting

  datatype Drift =
    | ManifestMismatch
    | MissingFromBundle(name: Text)
    | HashDiffers(name: Text)
    | NoSource(name: Text)

  /** The entry that a map from names, filled in order, holds: the last of its name. */
  function LastNamed(entries: seq<Entry>, name: Text): Option<Entry> {
    if entries == [] then None
    else if entries[|entries| - 1].name == name then Some(entries[|entries| - 1])
    else LastNamed(entries[..|entries| - 1], name)
  }

  function SourceDrift<C>(lib: Library<C>, entries: seq<Entry>, src: Source<C>): seq<Drift> {
    var bundled := LastNamed(entries, src.name);
    if bundled.None? then [MissingFromBundle(src.name)]
    else if bundled.value.srcSha256 != lib.hash(src.content) then [HashDiffers(src.name)]
    else []
  }

  function SourceDrifts<C>(lib: Library<C>, entries: seq<Entry>, sources: seq<Source<C>>): seq<Drift> {
    if sources == [] then []
    else SourceDrifts(lib, entries, sources[..|sources| - 1]) + SourceDrift(lib, entries, sources[|sources| - 1])
  }

  predicate HasSource<C>(sources: seq<Source<C>>, name: Text) {
    exists i :: 0 <= i < |sources| && sources[i].name == name
  }

  function EntryDrifts<C>(sources: seq<Source<C>>, entries: seq<Entry>): seq<Drift> {
    if entries == [] then []
    else
      var last := entries[|entries| - 1];
      EntryDrifts(sources, entries[..|entries| - 1]) + if HasSource(sources, last.name) then []
          else [NoSource(last.name)]
  }

  function Drifts<C>(lib: Library<C>, bundle: Bundle, sources: seq<Source<C>>): seq<Drift> {
    (if VerifyManifestSha(lib, bundle) then [] else [ManifestMismatch])
    + SourceDrifts(lib, bundle.entries, sources)
    + EntryDrifts(sources, bundle.entries)
  }

  // ---- The loops of the source -----------------------------------------------------------

  /** `names` maps each name to the entry that came last. */
  ghost predicate Indexes(names: map<Text, Entry>, entries: seq<Entry>) {
    forall name {:trigger LastNamed(entries, name)} ::
      if name in names then LastNamed(entries, name) == Some(names[name]) else LastNamed(entries, name).None?
  }

  method IndexEntries(entries: seq<Entry>) returns (names: map<Text, Entry>)
    ensures Indexes(names, entries)
  {
    names := map[];
    for i := 0 to |entries|
      invariant Indexes(names, entries[..i])
    {
      LastNamedGrows(entries, i);
      names := names[entries[i].name := entries[i]];
    }
    assert entries[..|entries|] == entries;
  }

  lemma LastNamedGrows(entries: seq<Entry>, i: nat)
    requires i < |entries|
    ensures forall name {:trigger LastNamed(entries[..i + 1], name)} ::
              LastNamed(entries[..i + 1], name) == if name == entries[i].name then Some(entries[i])
                  else LastNamed(entries[..i], name)
  {
    assert entries[..i + 1][..i] == entries[..i];
  }

  method CheckSources<C>(lib: Library<C>, names: map<Text, Entry>, ghost entries: seq<Entry>, sources: seq<Source<C>>)
    returns (drifts: seq<Drift>, seen: set<Text>)
    requires Indexes(names, entries)
    ensures drifts == SourceDrifts(lib, entries, sources)
    ensures forall name :: name in seen <==> HasSource(sources, name)
  {
    drifts, seen := [], {};
    for i := 0 to |sources|
      invariant drifts == SourceDrifts(lib, entries, sources[..i])
      invariant forall name :: name in seen <==> HasSource(sources[..i], name)
    {
      var src := sources[i];
      HasSourceGrows(sources, i);
      assert sources[..i + 1][..i] == sources[..i];
      ghost var bundled := LastNamed(entries, src.name);
      seen := seen + {src.name};
      if src.name !in names {
        drifts := drifts + [MissingFromBundle(src.name)];
      } else if names[src.name].srcSha256 != lib.hash(src.content) {
        drifts := drifts + [HashDiffers(src.name)];
      }
    }
    assert sources[..|sources|] == sources;
  }

  lemma HasSourceGrows<C>(sources: seq<Source<C>>, i: nat)
    requires i < |sources|
    ensures forall name {:trigger HasSource(sources[..i + 1], name)} ::
              HasSource(sources[..i + 1], name) <==> HasSource(sources[..i], name) || sources[i].name == name
  {
    var before, after := sources[..i], sources[..i + 1];
    assert after == before + [sources[i]];
    forall name ensures HasSource(after, name) <==> HasSource(before, name) || sources[i].name == name {
      HasSourceAppend(before, sources[i], name);
    }
  }

  lemma HasSourceAppend<C>(before: seq<Source<C>>, s: Source<C>, name: Text)
    ensures HasSource(before + [s], name) <==> HasSource(before, name) || s.name == name
  {
    var after := before + [s];
    if HasSource(before, name) {
      var j :| 0 <= j < |before| && before[j].name == name;
      assert after[j].name == name;
    }
    assert after[|before|] == s;
  }

  method CheckEntries<C>(ghost sources: seq<Source<C>>, seen: set<Text>, entries: seq<Entry>)
      returns (drifts: seq<Drift>)
    requires forall name :: name in seen <==> HasSource(sources, name)
    ensures drifts == EntryDrifts(sources, entries)
  {
    drifts := [];
    for i := 0 to |entries|
      invariant drifts == EntryDrifts(sources, entries[..i])
    {
      assert entries[..i + 1][..i] == entries[..i];
      if entries[i].name !in seen {
        drifts := drifts + [NoSource(entries[i].name)];
      }
    }
    assert entries[..|entries|] == entries;
  }

  method Check<C>(lib: Library<C>, bundle: Bundle, sources: seq<Source<C>>) returns (drifts: seq<Drift>)
    ensures drifts == Drifts(lib, bundle, sources)
  {
    var manifest := if lib.digest(CanonicalJSON(EntriesJson(bundle.entries))) == bundle.manifestSha256 then []
        else [ManifestMismatch];
    var names := IndexEntries(bundle.entries);
    var changed, seen := CheckSources(lib, names, bundle.entries, sources);
    var left := CheckEntries(sources, seen, bundle.entries);
    drifts := manifest + changed + left;
  }

  // ---- What the check accepts ---------------------------------------------------------------

  lemma {:induction false} NoSourceDriftsIff<C>(lib: Library<C>, entries: seq<Entry>, sources: seq<Source<C>>)
    ensures SourceDrifts(lib, entries, sources) == [] <==>
            forall i {:trigger sources[i]} :: 0 <= i < |sources| ==> SourceDrift(lib, entries, sources[i]) == []
  {
    if sources != [] {
      var before := sources[..|sources| - 1];
      NoSourceDriftsIff(lib, entries, before);
      assert forall i {:trigger before[i]} :: 0 <= i < |before| ==> before[i] == sources[i];
      assert forall i {:trigger sources[i]} :: 0 <= i < |before| ==> before[i] == sources[i];
    }
  }

  lemma {:induction false} NoEntryDriftsIff<C>(sources: seq<Source<C>>, entries: seq<Entry>)
    ensures EntryDrifts(sources, entries) == [] <==>
            forall i {:trigger entries[i]} :: 0 <= i < |entries| ==> HasSource(sources, entries[i].name)
  {
    if entries != [] {
      var before := entries[..|entries| - 1];
      NoEntryDriftsIff(sources, before);
      assert forall i {:trigger before[i]} :: 0 <= i < |before| ==> before[i] == entries[i];
      assert forall i {:trigger entries[i]} :: 0 <= i < |before| ==> before[i] == entries[i];
    }
  }

  predicate EntryNamesApart(entries: seq<Entry>) {
    forall i, j {:trigger entries[i], entries[j]} :: 0 <= i < j < |entries| ==> entries[i].name != entries[j].name
  }

  lemma {:induction false} LastOfUnique(entries: seq<Entry>, i: nat)
    requires EntryNamesApart(entries) && i < |entries|
    ensures LastNamed(entries, entries[i].name) == Some(entries[i])
  {
    if i < |entries| - 1 {
      assert entries[i].name != entries[|entries| - 1].name;
      LastOfUnique(entries[..|entries| - 1], i);
    }
  }

  lemma {:induction false} LastNamedIs(entries: seq<Entry>, name: Text)
    ensures var e := LastNamed(entries, name);
            if e.Some? then e.value in entries && e.value.name == name
                else forall i {:trigger entries[i]} :: 0 <= i < |entries| ==> entries[i].name != name
  {
    if entries != [] && entries[|entries| - 1].name != name {
      LastNamedIs(entries[..|entries| - 1], name);
      var before := entries[..|entries| - 1];
      assert forall i {:trigger entries[i]} :: 0 <= i < |before| ==> before[i] == entries[i];
    }
  }

  /** The entry that counts for a name is the last one. */
  lemma {:induction false} LastNamedMeans(entries: seq<Entry>, name: Text, i: nat)
    requires i < |entries| && entries[i].name == name
    requires forall j {:trigger entries[j]} :: i < j < |entries| ==> entries[j].name != name
    ensures LastNamed(entries, name) == Some(entries[i])
  {
    if i < |entries| - 1 {
      assert entries[|entries| - 1].name != name;
      LastNamedMeans(entries[..|entries| - 1], name, i);
    }
  }

  /** The names with their hashes, as the bundle and as the files have them. */
  ghost predicate EntryPair(entries: seq<Entry>, name: Text, hash: Text) {
    exists i {:trigger entries[i]} :: 0 <= i < |entries| && entries[i].name == name && entries[i].srcSha256 == hash
  }

  ghost predicate SourcePair<C>(lib: Library<C>, sources: seq<Source<C>>, name: Text, hash: Text) {
    exists i {:trigger sources[i]} :: 0 <= i < |sources| && sources[i].name == name
        && lib.hash(sources[i].content) == hash
  }

  ghost predicate SamePairs<C>(lib: Library<C>, entries: seq<Entry>, sources: seq<Source<C>>) {
    forall name, hash :: EntryPair(entries, name, hash) <==> SourcePair(lib, sources, name, hash)
  }

  /** The hash that counts for a name: that of its last entry. */
  ghost predicate CountedPair(entries: seq<Entry>, name: Text, hash: Text) {
    LastNamed(entries, name).Some? && LastNamed(entries, name).value.srcSha256 == hash
  }

  ghost predicate Matches<C>(lib: Library<C>, entries: seq<Entry>, sources: seq<Source<C>>) {
    forall name, hash :: CountedPair(entries, name, hash) <==> SourcePair(lib, sources, name, hash)
  }

  /** Any bundle is accepted if and only if its manifest hash is right and it has the same
      names with the same hashes as the files, where the last entry of a name counts. */
  lemma AcceptedIff<C>(lib: Library<C>, bundle: Bundle, sources: seq<Source<C>>)
    ensures Drifts(lib, bundle, sources) == [] <==>
            VerifyManifestSha(lib, bundle) && Matches(lib, bundle.entries, sources)
  {
    NoSourceDriftsIff(lib, bundle.entries, sources);
    NoEntryDriftsIff(sources, bundle.entries);
    if Drifts(lib, bundle, sources) == [] {
      PairsFromChecks(lib, bundle.entries, sources);
    }
    if Matches(lib, bundle.entries, sources) {
      ChecksFromPairs(lib, bundle.entries, sources);
    }
  }

  lemma PairsFromChecks<C>(lib: Library<C>, entries: seq<Entry>, sources: seq<Source<C>>)
    requires forall i {:trigger sources[i]} :: 0 <= i < |sources| ==> SourceDrift(lib, entries, sources[i]) == []
    requires forall i {:trigger entries[i]} :: 0 <= i < |entries| ==> HasSource(sources, entries[i].name)
    ensures Matches(lib, entries, sources)
  {
    forall name, hash ensures CountedPair(entries, name, hash) <==> SourcePair(lib, sources, name, hash) {
      if CountedPair(entries, name, hash) {
        LastNamedIs(entries, name);
        var i :| 0 <= i < |entries| && entries[i] == LastNamed(entries, name).value;
        var j :| 0 <= j < |sources| && sources[j].name == name;
        assert SourceDrift(lib, entries, sources[j]) == [];
      }
      if SourcePair(lib, sources, name, hash) {
        var j :| 0 <= j < |sources| && sources[j].name == name && lib.hash(sources[j].content) == hash;
        assert SourceDrift(lib, entries, sources[j]) == [];
      }
    }
  }

  lemma ChecksFromPairs<C>(lib: Library<C>, entries: seq<Entry>, sources: seq<Source<C>>)
    requires Matches(lib, entries, sources)
    ensures forall i {:trigger sources[i]} :: 0 <= i < |sources| ==> SourceDrift(lib, entries, sources[i]) == []
    ensures forall i {:trigger entries[i]} :: 0 <= i < |entries| ==> HasSource(sources, entries[i].name)
  {
    forall j | 0 <= j < |sources| ensures SourceDrift(lib, entries, sources[j]) == [] {
      assert SourcePair(lib, sources, sources[j].name, lib.hash(sources[j].content));
      assert CountedPair(entries, sources[j].name, lib.hash(sources[j].content));
    }
    forall i | 0 <= i < |entries| ensures HasSource(sources, entries[i].name) {
      var name := entries[i].name;
      LastNamedIs(entries, name);
      assert CountedPair(entries, name, LastNamed(entries, name).value.srcSha256);
      var j :| 0 <= j < |sources| && sources[j].name == name;
    }
  }

  /** So a bundle without repeated names is accepted if and only if its manifest hash is right
      and its names with their hashes are exactly those of the files. */
  lemma UniqueNamesAcceptedIff<C>(lib: Library<C>, bundle: Bundle, sources: seq<Source<C>>)
    requires EntryNamesApart(bundle.entries)
    ensures Drifts(lib, bundle, sources) == [] <==>
            VerifyManifestSha(lib, bundle) && SamePairs(lib, bundle.entries, sources)
  {
    AcceptedIff(lib, bundle, sources);
    forall name, hash ensures EntryPair(bundle.entries, name, hash) <==> CountedPair(bundle.entries, name, hash) {
      UniqueEntryCounts(bundle.entries, name, hash);
    }
  }

  lemma UniqueEntryCounts(entries: seq<Entry>, name: Text, hash: Text)
    requires EntryNamesApart(entries)
    ensures EntryPair(entries, name, hash) <==> CountedPair(entries, name, hash)
  {
    if EntryPair(entries, name, hash) {
      var i :| 0 <= i < |entries| && entries[i].name == name && entries[i].srcSha256 == hash;
      LastOfUnique(entries, i);
    }
    if CountedPair(entries, name, hash) {
      LastNamedIs(entries, name);
      var i :| 0 <= i < |entries| && entries[i] == LastNamed(entries, name).value;
    }
  }

  lemma {:induction false} NotNamed(entries: seq<Entry>, name: Text)
    ensures FindName(entries, name).None? <==>
            forall i {:trigger entries[i]} :: 0 <= i < |entries| ==> entries[i].name != name
  {
    if entries != [] && entries[0].name != name {
      var rest := entries[1..];
      NotNamed(rest, name);
      assert forall i {:trigger rest[i]} :: 0 <= i < |rest| ==> rest[i] == entries[i + 1];
      assert forall i {:trigger entries[i]} :: 1 <= i < |entries| ==> entries[i] == rest[i - 1];
    }
  }

  lemma {:induction false} InsertKeepsApart(e: Entry, entries: seq<Entry>)
    requires EntryNamesApart(entries) && FindName(entries, e.name).None?
    ensures EntryNamesApart(InsertBy(NameLe, e, entries))
  {
    NotNamed(entries, e.name);
    if !(entries == [] || NameLe(e, entries[0])) {
      var rest, first := entries[1..], entries[0];
      assert forall i {:trigger rest[i]} :: 0 <= i < |rest| ==> rest[i] == entries[i + 1];
      NotNamed(rest, e.name);
      InsertKeepsApart(e, rest);
      FindAfterInsert(e, rest, first.name);
      NotNamed(rest, first.name);
      NotNamed(InsertBy(NameLe, e, rest), first.name);
    }
  }

  lemma {:induction false} SortKeepsApart(entries: seq<Entry>)
    requires EntryNamesApart(entries)
    ensures EntryNamesApart(SortBy(NameLe, entries))
  {
    if entries != [] {
      var rest := entries[1..];
      assert forall i {:trigger rest[i]} :: 0 <= i < |rest| ==> rest[i] == entries[i + 1];
      SortKeepsApart(rest);
      NotNamed(rest, entries[0].name);
      FindAfterSort(rest, entries[0].name);
      InsertKeepsApart(entries[0], SortBy(NameLe, rest));
    }
  }

  lemma {:induction false} KeptNamesApart<C>(lib: Library<C>, sources: seq<Source<C>>)
    requires NamesApart(sources)
    ensures NamesApart(Kept(lib, sources))
  {
    if sources != [] {
      var before, last := sources[..|sources| - 1], sources[|sources| - 1];
      KeptNamesApart(lib, before);
      forall i | 0 <= i < |Kept(lib, before)| ensures Kept(lib, before)[i].name != last.name {
        KeptMember(lib, before, Kept(lib, before)[i]);
        var j :| 0 <= j < |before| && before[j] == Kept(lib, before)[i];
        assert sources[j].name != sources[|before|].name;
      }
    }
  }

  /** When all files have different names, so have the entries of every bundle built from them. */
  lemma BuiltNamesApart<C>(lib: Library<C>, sources: seq<Source<C>>, now: Text)
    requires NamesApart(sources)
    ensures EntryNamesApart(BundleOf(lib, sources, now).entries)
  {
    KeptNamesApart(lib, sources);
    SortKeepsApart(EntriesOf(lib, Kept(lib, sources), now));
  }

  // ---- What each complaint means ------------------------------------------------------------

  lemma {:induction false} SourceDriftsAre<C>(lib: Library<C>, entries: seq<Entry>, sources: seq<Source<C>>, d: Drift)
    ensures d in SourceDrifts(lib, entries, sources) <==>
            exists i {:trigger sources[i]} :: 0 <= i < |sources| && d in SourceDrift(lib, entries, sources[i])
  {
    if sources != [] {
      var before := sources[..|sources| - 1];
      SourceDriftsAre(lib, entries, before, d);
      assert forall i {:trigger before[i]} {:trigger sources[i]} :: 0 <= i < |before| ==> before[i] == sources[i];
    }
  }

  lemma {:induction false} EntryDriftsAre<C>(sources: seq<Source<C>>, entries: seq<Entry>, d: Drift)
    ensures d in EntryDrifts(sources, entries) <==>
            exists i {:trigger entries[i]} :: 0 <= i < |entries| && d == NoSource(entries[i].name)
                && !HasSource(sources, entries[i].name)
  {
    if entries != [] {
      var before := entries[..|entries| - 1];
      EntryDriftsAre(sources, before, d);
      assert forall i {:trigger before[i]} {:trigger entries[i]} :: 0 <= i < |before| ==> before[i] == entries[i];
    }
  }

  /** What the check complains about: the manifest, if its hash is wrong; a file with no entry of
      its name; a file whose content has another hash than the last entry of its name; and an
      entry with no file of its name. */
  lemma DriftsMean<C>(lib: Library<C>, bundle: Bundle, sources: seq<Source<C>>, name: Text)
    ensures var ds, entries := Drifts(lib, bundle, sources), bundle.entries;
            && (ManifestMismatch in ds <==> !VerifyManifestSha(lib, bundle))
            && (MissingFromBundle(name) in ds <==> HasSource(sources, name) && LastNamed(entries, name).None?)
            && (HashDiffers(name) in ds <==>
                && LastNamed(entries, name).Some?
                && exists i {:trigger sources[i]} ::
                     && 0 <= i < |sources| && sources[i].name == name
                     && lib.hash(sources[i].content) != LastNamed(entries, name).value.srcSha256)
            && (NoSource(name) in ds <==> LastNamed(entries, name).Some? && !HasSource(sources, name))
  {
    SourceDriftsAre(lib, bundle.entries, sources, ManifestMismatch);
    SourceDriftsAre(lib, bundle.entries, sources, MissingFromBundle(name));
    SourceDriftsAre(lib, bundle.entries, sources, HashDiffers(name));
    SourceDriftsAre(lib, bundle.entries, sources, NoSource(name));
    EntryDriftsAre(sources, bundle.entries, ManifestMismatch);
    EntryDriftsAre(sources, bundle.entries, MissingFromBundle(name));
    EntryDriftsAre(sources, bundle.entries, HashDiffers(name));
    EntryDriftsAre(sources, bundle.entries, NoSource(name));
    LastNamedIs(bundle.entries, name);
  }

  // ---- Checking a fresh build ------------------------------------------------------------------

  lemma {:induction false} LastNamedCons(e: Entry, entries: seq<Entry>, name: Text)
    ensures LastNamed([e] + entries, name) ==
            if LastNamed(entries, name).Some? then LastNamed(entries, name) else if e.name == name then Some(e)
                else None
  {
    var all := [e] + entries;
    if entries == [] {
      assert all[..0] == [] && all[|all| - 1] == e;
    } else {
      assert all[..|all| - 1] == [e] + entries[..|entries| - 1] && all[|all| - 1] == entries[|entries| - 1];
      LastNamedCons(e, entries[..|entries| - 1], name);
    }
  }

  lemma {:induction false} LastAfterInsert(e: Entry, entries: seq<Entry>, name: Text)
    ensures LastNamed(InsertBy(NameLe, e, entries), name) ==
            if LastNamed(entries, name).Some? then LastNamed(entries, name) else if e.name == name then Some(e)
                else None
  {
    if entries == [] || NameLe(e, entries[0]) {
      LastNamedCons(e, entries, name);
    } else {
      TextLeReflexive(e.name);
      LastAfterInsert(e, entries[1..], name);
      LastNamedCons(entries[0], InsertBy(NameLe, e, entries[1..]), name);
      LastNamedCons(entries[0], entries[1..], name);
      assert entries == [entries[0]] + entries[1..];
    }
  }

  lemma {:induction false} LastAfterSort(entries: seq<Entry>, name: Text)
    ensures LastNamed(SortBy(NameLe, entries), name) == LastNamed(entries, name)
  {
    if entries != [] {
      LastAfterSort(entries[1..], name);
      LastAfterInsert(entries[0], SortBy(NameLe, entries[1..]), name);
      LastNamedCons(entries[0], entries[1..], name);
      assert entries == [entries[0]] + entries[1..];
    }
  }

  /** The last file of a name that was not skipped. */
  function LastKept<C>(lib: Library<C>, sources: seq<Source<C>>, name: Text): Option<Source<C>> {
    if sources == [] then None
    else
      var last := sources[|sources| - 1];
      if last.name == name && !Skips(lib, last) then Some(last) else LastKept(lib, sources[..|sources| - 1], name)
  }

  lemma {:induction false} LastEntryOfBuild<C>(lib: Library<C>, sources: seq<Source<C>>, now: Text, name: Text)
    ensures var k := LastKept(lib, sources, name);
            LastNamed(EntriesOf(lib, Kept(lib, sources), now),
                name) == if k.Some? then Some(EntryOf(lib, k.value, now)) else None
  {
    if sources != [] {
      var before, last := sources[..|sources| - 1], sources[|sources| - 1];
      LastEntryOfBuild(lib, before, now, name);
      var entries := EntriesOf(lib, Kept(lib, sources), now);
      if Skips(lib, last) {
        assert Kept(lib, sources) == Kept(lib, before);
      } else {
        assert entries == EntriesOf(lib, Kept(lib, before), now) + [EntryOf(lib, last, now)];
        assert entries[..|entries| - 1] == EntriesOf(lib, Kept(lib, before), now);
      }
    }
  }

  lemma {:induction false} LastKeptIs<C>(lib: Library<C>, sources: seq<Source<C>>, name: Text)
    ensures var k := LastKept(lib, sources, name);
            if k.Some? then k.value in sources && k.value.name == name && !Skips(lib, k.value)
            else forall i {:trigger sources[i]} :: 0 <= i < |sources| && sources[i].name == name ==>
                Skips(lib, sources[i])
  {
    if sources != [] {
      var before := sources[..|sources| - 1];
      LastKeptIs(lib, before, name);
      assert forall i {:trigger sources[i]} :: 0 <= i < |before| ==> before[i] == sources[i];
    }
  }

  lemma BuiltEntriesHaveSources<C>(lib: Library<C>, sources: seq<Source<C>>, now: Text)
    ensures EntryDrifts(sources, BundleOf(lib, sources, now).entries) == []
  {
    var entries := BundleOf(lib, sources, now).entries;
    forall i | 0 <= i < |entries| ensures HasSource(sources, entries[i].name) {
      var name := entries[i].name;
      LastNamedIs(entries, name);
      LastAfterSort(EntriesOf(lib, Kept(lib, sources), now), name);
      LastEntryOfBuild(lib, sources, now, name);
      LastKeptIs(lib, sources, name);
      var k := LastKept(lib, sources, name).value;
      var j :| 0 <= j < |sources| && sources[j] == k;
    }
    NoEntryDriftsIff(sources, entries);
  }

  /** Every name has a file that gets an entry, and files of one name have one content. */
  predicate Buildable<C(==)>(lib: Library<C>, sources: seq<Source<C>>) {
    && (forall i {:trigger sources[i]} :: 0 <= i < |sources| ==> LastKept(lib, sources, sources[i].name).Some?)
    && (forall i, j {:trigger sources[i], sources[j]} ::
          0 <= i < |sources| && 0 <= j < |sources| && sources[i].name == sources[j].name ==>
          sources[i].content == sources[j].content)
  }

  /** A bundle that has just been built is accepted if and only if every name has a file
      that was not skipped and files with the same name have the same content. */
  lemma FreshBuildAcceptedIff<C(!new)>(lib: Library<C>, sources: seq<Source<C>>, now: Text)
    requires NoCollisions(lib)
    ensures Drifts(lib, BundleOf(lib, sources, now), sources) == [] <==> Buildable(lib, sources)
  {
    var entries := BundleOf(lib, sources, now).entries;
    BuiltEntriesHaveSources(lib, sources, now);
    NoSourceDriftsIff(lib, entries, sources);
    forall i | 0 <= i < |sources|
      ensures var k := LastKept(lib, sources, sources[i].name);
              SourceDrift(lib, entries, sources[i]) == [] <==> k.Some? && k.value.content == sources[i].content
    {
      LastAfterSort(EntriesOf(lib, Kept(lib, sources), now), sources[i].name);
      LastEntryOfBuild(lib, sources, now, sources[i].name);
    }
    LastKeptDecides(lib, sources);
  }

  lemma LastKeptDecides<C(!new)>(lib: Library<C>, sources: seq<Source<C>>)
    ensures Buildable(lib, sources) <==>
            forall i {:trigger sources[i]} :: 0 <= i < |sources| ==>
              var k := LastKept(lib, sources, sources[i].name); k.Some? && k.value.content == sources[i].content
  {
    if Buildable(lib, sources) {
      forall i | 0 <= i < |sources| ensures LastKept(lib, sources,
          sources[i].name).value.content == sources[i].content {
        LastKeptIs(lib, sources, sources[i].name);
        var j :| 0 <= j < |sources| && sources[j] == LastKept(lib, sources, sources[i].name).value;
      }
    }
  }

  /** A skill without front matter makes every check of a fresh bundle fail, unless the start
      directory has a file of the same name and the very same content. */
  lemma SkippedSkillIsDrift<C(!new)>(lib: Library<C>, listing: Listing<C>, i: nat, now: Text) returns (j: nat)
    requires NoCollisions(lib) && DirsApart(listing.dirs) && i < |listing.dirs|
    requires listing.dirs[i].skill.Some? && !lib.parse(listing.dirs[i].skill.value).hasFrontmatter
    ensures Drifts(lib, BundleOf(lib, Walk(listing), now), Walk(listing)) == [] ==>
              && j < |listing.start| && IsSubFile(listing.start[j].name)
              && SubName(listing.start[j].name) == listing.dirs[i].name
                  && listing.start[j].content == listing.dirs[i].skill.value
  {
    j := 0;
    var walk, s := Walk(listing), SkillSource(listing.dirs[i]);
    FreshBuildAcceptedIff(lib, walk, now);
    if Buildable(lib, walk) {
      SkillSourceMember(listing.dirs, s);
      assert s in walk;
      var n :| 0 <= n < |walk| && walk[n] == s;
      LastKeptIs(lib, walk, s.name);
      var k := LastKept(lib, walk, s.name).value;
      var m :| 0 <= m < |walk| && walk[m] == k;
      assert k.content == s.content;
      KeptNameIsOfStart(lib, listing, i, k);
      SubSourceMember(listing.start, k);
      j :| 0 <= j < |listing.start| && IsSubFile(listing.start[j].name) && k == SubSource(listing.start[j]);
      PluginNamesAgree(SubName(listing.start[j].name), listing.dirs[i].name);
    }
  }

  lemma KeptNameIsOfStart<C>(lib: Library<C>, listing: Listing<C>, i: nat, k: Source<C>)
    requires DirsApart(listing.dirs) && i < |listing.dirs| && listing.dirs[i].skill.Some?
    requires !lib.parse(listing.dirs[i].skill.value).hasFrontmatter
    requires k in Walk(listing) && k.name == PLUGIN + listing.dirs[i].name && !Skips(lib, k)
    ensures k in SubSources(listing.start)
  {
    if k in SkillSources(listing.dirs) {
      SkillSourceMember(listing.dirs, k);
      var n :| 0 <= n < |listing.dirs| && listing.dirs[n].skill.Some? && k == SkillSource(listing.dirs[n]);
      PluginNamesAgree(listing.dirs[n].name, listing.dirs[i].name);
      assert false;
    }
  }
}
