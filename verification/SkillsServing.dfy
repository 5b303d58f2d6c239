/** Loading the bundle, and serving skills from it or from the files. */
module SkillsServing {
  import opened CanonicalJson
  import opened Options
  import opened SkillsBundle
  import opened Sorting

  /** What reading the bundle file gives. */
  datatype BundleFile = Unreadable | NotJson | BadShape | Shaped(bundle: Bundle)

  datatype Skill = Skill(frontmatter: seq<Member>, body: Text)

  datatype Served = FromBundle(skill: Skill, staleWarn: bool) | FromDisk(skill: Skill) | NotFound

  /** `entries.find(e => e.name === name)` */
  function FindName(entries: seq<Entry>, name: Text): Option<Entry> {
    if entries == [] then None else if entries[0].name == name then Some(entries[0]) else FindName(entries[1..], name)
  }

  function FirstNamed<C>(sources: seq<Source<C>>, name: Text): Option<Source<C>> {
    if sources == [] then None else if sources[0].name == name then Some(sources[0]) else FirstNamed(sources[1..], name)
  }

  function ReadSkillFromDisk<C>(lib: Library<C>, walk: seq<Source<C>>, name: Text): Option<Skill> {
    var match_ := FirstNamed(walk, name);
    if match_.None? then None
    else
      var parsed := lib.parse(match_.value.content);
      Some(Skill(parsed.frontmatter, parsed.body))
  }

  /** The file an entry was built from can be read, and has changed. */
  predicate Stale<C>(lib: Library<C>, e: Entry, read: Text -> Option<C>) {
    read(e.path).Some? && lib.hash(read(e.path).value) != e.srcSha256
  }

  function OrDisk(skill: Option<Skill>): Served {
    if skill.Some? then FromDisk(skill.value) else NotFound
  }

  function Serve<C>(lib: Library<C>, bundle: Option<Bundle>, name: Text, read: Text -> Option<C>,
      walk: seq<Source<C>>): Served {
    var entry := if bundle.Some? then FindName(bundle.value.entries, name) else None;
    if entry.Some? then FromBundle(Skill(entry.value.frontmatter, entry.value.body), Stale(lib, entry.value, read))
    else OrDisk(ReadSkillFromDisk(lib, walk, name))
  }

  /** The module's cache: at most one bundle, under the path it was read from. */
  class Loader<C> {
    const lib: Library<C>
    var cache: Option<(Text, Bundle)>

    /** Only a bundle that passed the integrity check is ever kept. */
    ghost predicate Valid()
      reads this
    {
      cache.Some? ==> VerifyManifestSha(lib, cache.value.1)
    }

    constructor (lib: Library<C>)
      ensures Valid() && this.lib == lib && cache == None
    {
      this.lib := lib;
      cache := None;
    }

    /** A hit returns the cached bundle whatever the file holds by now; a failed integrity
        check empties the cache, and a file that cannot be read or parsed leaves it alone. */
    method LoadSkillsBundle(path: Text, file: BundleFile) returns (r: Option<Bundle>)
      requires Valid()
      modifies this
      ensures Valid() && (r.Some? ==> VerifyManifestSha(lib, r.value))
      ensures var hit := old(cache.Some? && cache.value.0 == path);
              if hit then r == Some(old(cache).value.1) && cache == old(cache)
              else if !file.Shaped? then r == None && cache == old(cache)
              else if VerifyManifestSha(lib, file.bundle) then r == Some(file.bundle)
                  && cache == Some((path, file.bundle))
              else r == None && cache == None
    {
      if cache.Some? && cache.value.0 == path {
        return Some(cache.value.1);
      }
      if !file.Shaped? { return None; }
      if !VerifyManifestSha(lib, file.bundle) {
        cache := None;
        return None;
      }
      cache := Some((path, file.bundle));
      return Some(file.bundle);
    }

    /** The bundle if it is there and sound and has the name, and else the files. */
    method GetSkill(name: Text, disabled: bool, path: Text, file: BundleFile, read: Text -> Option<C>,
        walk: seq<Source<C>>)
      returns (r: Served)
      requires Valid()
      modifies this
      ensures Valid()
      ensures disabled ==> r == OrDisk(ReadSkillFromDisk(lib, walk, name)) && cache == old(cache)
      ensures !disabled && old(cache.Some? && cache.value.0 == path) ==>
              r == Serve(lib, Some(old(cache).value.1), name, read, walk)
      ensures !disabled && !old(cache.Some? && cache.value.0 == path) ==>
                r == Serve(lib, if file.Shaped? && VerifyManifestSha(lib, file.bundle) then Some(file.bundle)
                    else None, name, read, walk)
    {
      if disabled {
        return OrDisk(ReadSkillFromDisk(lib, walk, name));
      }
      var bundle := LoadSkillsBundle(path, file);
      if bundle.Some? {
        var entry := FindName(bundle.value.entries, name);
        if entry.Some? {
          var source := read(entry.value.path);
          var stale := source.Some? && lib.hash(source.value) != entry.value.srcSha256;
          return FromBundle(Skill(entry.value.frontmatter, entry.value.body), stale);
        }
      }
      return OrDisk(ReadSkillFromDisk(lib, walk, name));
    }
  }

  // ---- Which entry, and which file --------------------------------------------------------

  /** The first file of a name. */
  lemma {:induction false} FirstNamedMeans<C>(sources: seq<Source<C>>, name: Text, i: nat)
    ensures FirstNamed(sources, name).None? <==>
            forall j {:trigger sources[j]} :: 0 <= j < |sources| ==> sources[j].name != name
    ensures i < |sources| && sources[i].name == name
            && (forall j {:trigger sources[j]} :: 0 <= j < i ==> sources[j].name != name) ==>
            FirstNamed(sources, name) == Some(sources[i])
  {
    if sources != [] && sources[0].name != name {
      var rest := sources[1..];
      assert forall j {:trigger rest[j]} :: 0 <= j < |rest| ==> rest[j] == sources[j + 1];
      assert forall j {:trigger sources[j]} :: 1 <= j < |sources| ==> sources[j] == rest[j - 1];
      FirstNamedMeans(rest, name, if i > 0 then i - 1 else 0);
    }
  }

  /** The first entry of a name. */
  lemma {:induction false} FindNameMeans(entries: seq<Entry>, name: Text, i: nat)
    ensures FindName(entries, name).None? <==>
            forall j {:trigger entries[j]} :: 0 <= j < |entries| ==> entries[j].name != name
    ensures i < |entries| && entries[i].name == name
            && (forall j {:trigger entries[j]} :: 0 <= j < i ==> entries[j].name != name) ==>
            FindName(entries, name) == Some(entries[i])
  {
    if entries != [] && entries[0].name != name {
      var rest := entries[1..];
      assert forall j {:trigger rest[j]} :: 0 <= j < |rest| ==> rest[j] == entries[j + 1];
      assert forall j {:trigger entries[j]} :: 1 <= j < |entries| ==> entries[j] == rest[j - 1];
      FindNameMeans(rest, name, if i > 0 then i - 1 else 0);
    }
  }

  /** What is served: the front matter and body of the bundle's entry for the name, with a
      warning exactly when its file can be read and has another hash by now; without such an
      entry, those of the first file of that name; and nothing if there is none. */
  lemma ServeMeans<C>(lib: Library<C>, bundle: Option<Bundle>, name: Text, read: Text -> Option<C>,
      walk: seq<Source<C>>)
    ensures var r, entries, file := Serve(lib, bundle, name, read, walk),
            (if bundle.Some? then bundle.value.entries else []),
              FirstNamed(walk, name);
            match FindName(entries, name)
            case Some(e) =>
              && r.FromBundle? && r.skill.frontmatter == e.frontmatter && r.skill.body == e.body
              && (r.staleWarn <==> read(e.path).Some? && lib.hash(read(e.path).value) != e.srcSha256)
            case None =>
              if file.Some? then
                r.FromDisk? && r.skill.frontmatter == lib.parse(file.value.content).frontmatter
                && r.skill.body == lib.parse(file.value.content).body
              else r == NotFound
  {
  }

  // ---- A built bundle and the files ----------------------------------------------------

  lemma {:induction false} FindAfterInsert(e: Entry, entries: seq<Entry>, name: Text)
    ensures FindName(InsertBy(NameLe, e, entries), name) == if e.name == name then Some(e) else FindName(entries, name)
  {
    if entries == [] || NameLe(e, entries[0]) {
      assert ([e] + entries)[1..] == entries;
    } else {
      TextLeReflexive(e.name);
      FindAfterInsert(e, entries[1..], name);
      var rest := InsertBy(NameLe, e, entries[1..]);
      assert ([entries[0]] + rest)[1..] == rest;
    }
  }

  /** Sorting by name keeps the order of entries with the same name. */
  lemma {:induction false} FindAfterSort(entries: seq<Entry>, name: Text)
    ensures FindName(SortBy(NameLe, entries), name) == FindName(entries, name)
  {
    if entries != [] {
      FindAfterSort(entries[1..], name);
      FindAfterInsert(entries[0], SortBy(NameLe, entries[1..]), name);
    }
  }

  lemma {:induction false} FindEntry<C>(lib: Library<C>, kept: seq<Source<C>>, now: Text, name: Text)
    ensures var first := FirstNamed(kept, name);
            FindName(EntriesOf(lib, kept, now), name) == if first.Some? then Some(EntryOf(lib, first.value, now))
                else None
  {
    if kept != [] {
      FindEntry(lib, kept[1..], now, name);
      assert EntriesOf(lib, kept, now)[1..] == EntriesOf(lib, kept[1..], now);
    }
  }

  /** The entry that a build makes for a name: that of the first file which was not skipped. */
  lemma BuiltEntry<C>(lib: Library<C>, sources: seq<Source<C>>, now: Text, name: Text)
    ensures var first := FirstNamed(Kept(lib, sources), name);
            FindName(BundleOf(lib, sources, now).entries,
                name) == if first.Some? then Some(EntryOf(lib, first.value, now)) else None
  {
    FindAfterSort(EntriesOf(lib, Kept(lib, sources), now), name);
    FindEntry(lib, Kept(lib, sources), now, name);
  }

  /** Two files that read as the same skill. */
  predicate SameSkill(a: Parsed, b: Parsed) {
    a.frontmatter == b.frontmatter && a.body == b.body
  }

  /** A bundle that was built at any time from any files, served with no stale warning while
      the entry's file can be read, agrees with the files as they are now, if and only if the
      file that the walk finds first under the name reads as the same skill as the entry's
      file; the bundle itself does not matter. */
  lemma BundleAgreesWithDiskIff<C(!new)>(lib: Library<C>, sources: seq<Source<C>>, now: Text, name: Text,
      read: Text -> Option<C>, walk: seq<Source<C>>)
    requires NoCollisions(lib)
    requires var e := FindName(BundleOf(lib, sources, now).entries, name);
             e.Some? && read(e.value.path).Some? && !Stale(lib, e.value, read)
    ensures var served := Serve(lib, Some(BundleOf(lib, sources, now)), name, read, walk);
            var e, m := FindName(BundleOf(lib, sources, now).entries, name), FirstNamed(walk, name);
            && served.FromBundle? && !served.staleWarn
            && (ReadSkillFromDisk(lib, walk, name) == Some(served.skill) <==>
                m.Some? && SameSkill(lib.parse(m.value.content), lib.parse(read(e.value.path).value)))
  {
    BuiltEntry(lib, sources, now, name);
    var src := FirstNamed(Kept(lib, sources), name).value;
    assert lib.hash(src.content) == lib.hash(read(src.path).value);
  }

  /** In particular it agrees when the first file of that name is the entry's file. */
  lemma BundleAgreesWithDisk<C(!new)>(lib: Library<C>, sources: seq<Source<C>>, now: Text, name: Text,
      read: Text -> Option<C>, walk: seq<Source<C>>)
    requires NoCollisions(lib)
    requires var e, m := FindName(BundleOf(lib, sources, now).entries, name), FirstNamed(walk, name);
             && e.Some? && m.Some? && m.value.path == e.value.path
             && read(m.value.path) == Some(m.value.content)
             && !Stale(lib, e.value, read)
    ensures var served := Serve(lib, Some(BundleOf(lib, sources, now)), name, read, walk);
            served == FromBundle(ReadSkillFromDisk(lib, walk, name).value, false)
  {
    BundleAgreesWithDiskIff(lib, sources, now, name, read, walk);
  }

  lemma {:induction false} FirstNamedIs<C>(sources: seq<Source<C>>, name: Text)
    ensures var m := FirstNamed(sources, name);
            m.Some? ==> m.value in sources && m.value.name == name
  {
    if sources != [] && sources[0].name != name {
      FirstNamedIs(sources[1..], name);
    }
  }

  lemma {:induction false} FirstNamedAppend<C>(a: seq<Source<C>>, s: Source<C>, name: Text)
    ensures FirstNamed(a + [s], name) ==
            if FirstNamed(a, name).Some? then FirstNamed(a, name) else if s.name == name then Some(s) else None
  {
    if a == [] {
      assert ([] + [s])[1..] == [];
    } else {
      assert (a + [s])[1..] == a[1..] + [s];
      FirstNamedAppend(a[1..], s, name);
    }
  }

  lemma {:induction false} FirstNamedConcat<C>(a: seq<Source<C>>, b: seq<Source<C>>, name: Text)
    ensures FirstNamed(a + b, name) == if FirstNamed(a, name).Some? then FirstNamed(a, name) else FirstNamed(b, name)
  {
    if a == [] {
      assert a + b == b;
    } else {
      assert (a + b)[1..] == a[1..] + b;
      FirstNamedConcat(a[1..], b, name);
    }
  }

  lemma {:induction false} KeptConcat<C>(lib: Library<C>, a: seq<Source<C>>, b: seq<Source<C>>)
    ensures Kept(lib, a + b) == Kept(lib, a) + Kept(lib, b)
  {
    if b == [] {
      assert a + b == a;
    } else {
      assert (a + b)[..|a + b| - 1] == a + b[..|b| - 1];
      KeptConcat(lib, a, b[..|b| - 1]);
    }
  }

  /** The first file of a name is the first kept one exactly when it is kept. */
  lemma {:induction false} FirstKept<C>(lib: Library<C>, sources: seq<Source<C>>, name: Text)
    ensures var m, k := FirstNamed(sources, name), FirstNamed(Kept(lib, sources), name);
            && (k.Some? ==> m.Some?)
            && (m.Some? && !Skips(lib, m.value) ==> k == m)
            && (k.Some? ==> !Skips(lib, k.value) && k.value in sources && k.value.name == name)
  {
    if sources != [] {
      var before, last := sources[..|sources| - 1], sources[|sources| - 1];
      FirstKept(lib, before, name);
      assert before + [last] == sources;
      FirstNamedAppend(before, last, name);
      if !Skips(lib, last) {
        FirstNamedAppend(Kept(lib, before), last, name);
      } else {
        assert Kept(lib, sources) == Kept(lib, before);
      }
    }
  }

  /** While the files have not changed since the build, serving gives what the files give if
      and only if the first file of the name got an entry, or none of that name did, or the
      one that did reads as the same skill. */
  lemma UnchangedFilesAgreeIff<C(!new)>(lib: Library<C>, sources: seq<Source<C>>, now: Text, name: Text,
      read: Text -> Option<C>)
    requires NoCollisions(lib) && FirstNamed(sources, name).Some?
    requires forall i {:trigger sources[i]} :: 0 <= i < |sources| ==> read(sources[i].path) == Some(sources[i].content)
    ensures var served := Serve(lib, Some(BundleOf(lib, sources, now)), name, read, sources);
            var m, k := FirstNamed(sources, name).value, FirstNamed(Kept(lib, sources), name);
            && !served.NotFound? && (served.FromBundle? ==> !served.staleWarn)
            && (ReadSkillFromDisk(lib, sources, name) == Some(served.skill) <==>
                !Skips(lib, m) || k.None? || SameSkill(lib.parse(m.content), lib.parse(k.value.content)))
  {
    BuiltEntry(lib, sources, now, name);
    FirstKept(lib, sources, name);
    var k := FirstNamed(Kept(lib, sources), name);
    if k.Some? {
      var i :| 0 <= i < |sources| && sources[i] == k.value;
      assert read(k.value.path) == Some(k.value.content);
      BundleAgreesWithDiskIff(lib, sources, now, name, read, sources);
    }
  }

  predicate NamesApart<C>(sources: seq<Source<C>>) {
    forall i, j {:trigger sources[i], sources[j]} :: 0 <= i < j < |sources| ==> sources[i].name != sources[j].name
  }

  lemma {:induction false} OnlyOneOfName<C>(sources: seq<Source<C>>, i: nat)
    requires NamesApart(sources) && i < |sources|
    ensures FirstNamed(sources, sources[i].name) == Some(sources[i])
  {
    if i > 0 {
      assert sources[0].name != sources[i].name;
      var rest := sources[1..];
      assert forall j {:trigger rest[j]} :: 0 <= j < |rest| ==> rest[j] == sources[j + 1];
      OnlyOneOfName(rest, i - 1);
    }
  }

  /** While no two skill files have the same name, a bundle that was built at any time, and
      served with no stale warning for a file that is still among them, agrees with the files. */
  lemma BundleAgreesWhenNamesAreUnique<C(!new)>(lib: Library<C>, sources: seq<Source<C>>, now: Text,
      read: Text -> Option<C>, walk: seq<Source<C>>, i: nat)
    requires NoCollisions(lib) && NamesApart(walk) && i < |walk| && read(walk[i].path) == Some(walk[i].content)
    requires var e := FindName(BundleOf(lib, sources, now).entries, walk[i].name);
             e.Some? && e.value.path == walk[i].path && !Stale(lib, e.value, read)
    ensures var served := Serve(lib, Some(BundleOf(lib, sources, now)), walk[i].name, read, walk);
            var parsed := lib.parse(walk[i].content);
            && served == FromBundle(Skill(parsed.frontmatter, parsed.body), false)
            && ReadSkillFromDisk(lib, walk, walk[i].name) == Some(served.skill)
  {
    OnlyOneOfName(walk, i);
    BundleAgreesWithDisk(lib, sources, now, walk[i].name, read, walk);
  }
}
