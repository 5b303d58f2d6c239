/** The walk over the skills directory, and when it gives two files one name. */
module SkillsWalk {
  import opened CanonicalJson
  import opened Options
  import opened Selections
  import opened SkillsBundle
  import opened SkillsServing
  import opened Sorting

  /** What stands in the skills directory: its sub-directories, each with or without a
      `SKILL.md`, and the files of `skills/start`. */
  datatype Listing<C> = Listing(dirs: seq<Dir<C>>, start: seq<File<C>>)

  datatype Dir<C> = Dir(name: Text, skill: Option<C>, references: Option<seq<Member>>, largestReference: nat)

  datatype File<C> = File(name: Text, content: C)

  const PLUGIN: Text := [97, 103, 101, 110, 116, 45, 102, 108, 121, 119, 104, 101, 101, 108, 58]
  const START: Text := [115, 116, 97, 114, 116, 95]
  const DOT_MD: Text := [46, 109, 100]
  const SKILLS: Text := [115, 107, 105, 108, 108, 115, 47]
  const SKILL_MD: Text := [47, 83, 75, 73, 76, 76, 46, 109, 100]
  const SKILLS_START: Text := [115, 107, 105, 108, 108, 115, 47, 115, 116, 97, 114, 116, 47]
  const UNDERSCORE: CodeUnit := 95

  /** `_<x>.md` */
  predicate IsSubFile(name: Text) {
    |name| >= 4 && name[0] == UNDERSCORE && name[|name| - 3..] == DOT_MD
  }

  function SubName(name: Text): Text
    requires IsSubFile(name)
  {
    START + name[1..|name| - 3]
  }

  /** The file that a directory or a file of the start directory gives. */
  function SkillSource<C>(dir: Dir<C>): Source<C>
    requires dir.skill.Some?
  {
    Source(PLUGIN + dir.name, SKILLS + dir.name + SKILL_MD, false, dir.skill.value, dir.references,
        dir.largestReference)
  }

  function SubSource<C>(file: File<C>): Source<C>
    requires IsSubFile(file.name)
  {
    Source(PLUGIN + SubName(file.name), SKILLS_START + file.name, true, file.content, None, 0)
  }

  function SkillSources<C>(dirs: seq<Dir<C>>): seq<Source<C>> {
    if dirs == [] then []
    else
      var last := dirs[|dirs| - 1];
      SkillSources(dirs[..|dirs| - 1]) +
      if last.skill.None? then [] else [SkillSource(last)]
  }

  function SubSources<C>(files: seq<File<C>>): seq<Source<C>> {
    if files == [] then []
    else
      var last := files[|files| - 1];
      SubSources(files[..|files| - 1]) +
      if !IsSubFile(last.name) then [] else [SubSource(last)]
  }

  function Walk<C>(listing: Listing<C>): seq<Source<C>> {
    SkillSources(listing.dirs) + SubSources(listing.start)
  }

  method WalkSources<C>(listing: Listing<C>) returns (sources: seq<Source<C>>)
    ensures sources == Walk(listing)
  {
    sources := [];
    for i := 0 to |listing.dirs|
      invariant sources == SkillSources(listing.dirs[..i])
    {
      var dir := listing.dirs[i];
      assert listing.dirs[..i + 1][..i] == listing.dirs[..i];
      if dir.skill.Some? {
        sources := sources + [Source(PLUGIN + dir.name, SKILLS + dir.name + SKILL_MD, false, dir.skill.value,
            dir.references, dir.largestReference)];
      }
    }
    assert listing.dirs[..|listing.dirs|] == listing.dirs;
    ghost var skills := sources;
    for i := 0 to |listing.start|
      invariant sources == skills + SubSources(listing.start[..i])
    {
      var file := listing.start[i];
      assert listing.start[..i + 1][..i] == listing.start[..i];
      if IsSubFile(file.name) {
        sources := sources + [Source(PLUGIN + SubName(file.name), SKILLS_START + file.name, true, file.content, None,
            0)];
      }
    }
    assert listing.start[..|listing.start|] == listing.start;
  }

  // ---- Names --------------------------------------------------------------------------------

  /** A sub-directory with a skill, and a file of the start directory, by their names. */
  predicate HasSkill<C>(dirs: seq<Dir<C>>, name: Text) {
    exists i {:trigger dirs[i]} :: 0 <= i < |dirs| && dirs[i].skill.Some? && dirs[i].name == name
  }

  predicate HasSubFile<C>(files: seq<File<C>>, sub: Text) {
    exists i {:trigger files[i]} :: 0 <= i < |files| && IsSubFile(files[i].name) && SubName(files[i].name) == sub
  }

  predicate Named<C>(sources: seq<Source<C>>, name: Text) {
    exists i {:trigger sources[i]} :: 0 <= i < |sources| && sources[i].name == PLUGIN + name
  }

  lemma NamedAppend<C>(sources: seq<Source<C>>, s: Source<C>, name: Text)
    ensures Named(sources + [s], name) <==> Named(sources, name) || s.name == PLUGIN + name
  {
    var more := sources + [s];
    assert more[|sources|] == s;
    assert forall i {:trigger sources[i]} {:trigger more[i]} :: 0 <= i < |sources| ==> more[i] == sources[i];
  }

  lemma PluginNamesAgree(a: Text, b: Text)
    ensures PLUGIN + a == PLUGIN + b <==> a == b
  {
    if PLUGIN + a == PLUGIN + b {
      assert (PLUGIN + a)[|PLUGIN|..] == a && (PLUGIN + b)[|PLUGIN|..] == b;
    }
  }

  lemma {:induction false} SkillIsNamed<C>(dirs: seq<Dir<C>>, name: Text)
    ensures Named(SkillSources(dirs), name) <==> HasSkill(dirs, name)
  {
    if dirs != [] {
      var before, last := dirs[..|dirs| - 1], dirs[|dirs| - 1];
      SkillIsNamed(before, name);
      assert HasSkill(dirs, name) <==> HasSkill(before, name) || (last.skill.Some? && last.name == name) by {
        assert forall i {:trigger before[i]} {:trigger dirs[i]} :: 0 <= i < |before| ==> dirs[i] == before[i];
      }
      if last.skill.Some? {
        PluginNamesAgree(last.name, name);
        NamedAppend(SkillSources(before), SkillSources(dirs)[|SkillSources(before)|], name);
      } else {
        assert SkillSources(dirs) == SkillSources(before);
      }
    }
  }

  lemma {:induction false} SubFileIsNamed<C>(files: seq<File<C>>, sub: Text)
    ensures Named(SubSources(files), sub) <==> HasSubFile(files, sub)
  {
    if files != [] {
      var before, last := files[..|files| - 1], files[|files| - 1];
      SubFileIsNamed(before, sub);
      assert HasSubFile(files, sub) <==>
          HasSubFile(before, sub) || (IsSubFile(last.name) && SubName(last.name) == sub) by {
        assert forall i {:trigger before[i]} {:trigger files[i]} :: 0 <= i < |before| ==> files[i] == before[i];
      }
      if IsSubFile(last.name) {
        PluginNamesAgree(SubName(last.name), sub);
        NamedAppend(SubSources(before), SubSources(files)[|SubSources(before)|], sub);
      } else {
        assert SubSources(files) == SubSources(before);
      }
    }
  }

  /** A skill and a sub-file get one name if and only if the skill's directory is called
      `start_<x>` and the file `_<x>.md`. */
  lemma NameClashIff<C>(listing: Listing<C>, name: Text)
    ensures Named(SkillSources(listing.dirs), name) && Named(SubSources(listing.start), name) <==>
            HasSkill(listing.dirs, name) && HasSubFile(listing.start, name)
    ensures HasSubFile(listing.start, name) ==> START <= name
  {
    SkillIsNamed(listing.dirs, name);
    SubFileIsNamed(listing.start, name);
  }

  predicate DirsApart<C>(dirs: seq<Dir<C>>) {
    forall i, j {:trigger dirs[i], dirs[j]} :: 0 <= i < j < |dirs| ==> dirs[i].name != dirs[j].name
  }

  predicate FilesApart<C>(files: seq<File<C>>) {
    forall i, j {:trigger files[i], files[j]} :: 0 <= i < j < |files| ==> files[i].name != files[j].name
  }

  lemma ApartAppend<C>(sources: seq<Source<C>>, s: Source<C>, name: Text)
    requires NamesApart(sources) && s.name == PLUGIN + name && !Named(sources, name)
    ensures NamesApart(sources + [s])
  {
  }

  lemma SubNamesDiffer(a: Text, b: Text)
    requires IsSubFile(a) && IsSubFile(b)
    ensures SubName(a) == SubName(b) <==> a == b
  {
    var x, y := a[1..|a| - 3], b[1..|b| - 3];
    assert SubName(a)[|START|..] == x && SubName(b)[|START|..] == y;
    assert a == [UNDERSCORE] + (x + DOT_MD) && b == [UNDERSCORE] + (y + DOT_MD);
  }

  lemma {:induction false} SkillNamesApart<C>(dirs: seq<Dir<C>>)
    requires DirsApart(dirs)
    ensures NamesApart(SkillSources(dirs))
  {
    if dirs != [] {
      var before, last := dirs[..|dirs| - 1], dirs[|dirs| - 1];
      SkillNamesApart(before);
      SkillIsNamed(before, last.name);
      if last.skill.Some? {
        forall i | 0 <= i < |before| ensures before[i].name != last.name {
          assert dirs[i].name != dirs[|dirs| - 1].name;
        }
        ApartAppend(SkillSources(before), SkillSources(dirs)[|SkillSources(before)|], last.name);
      } else {
        assert SkillSources(dirs) == SkillSources(before);
      }
    }
  }

  lemma {:induction false} SubFileNamesApart<C>(files: seq<File<C>>)
    requires FilesApart(files)
    ensures NamesApart(SubSources(files))
  {
    if files != [] {
      var before, last := files[..|files| - 1], files[|files| - 1];
      SubFileNamesApart(before);
      if IsSubFile(last.name) {
        SubFileIsNamed(before, SubName(last.name));
        forall i | 0 <= i < |before|
            && IsSubFile(before[i].name) ensures SubName(before[i].name) != SubName(last.name) {
          assert files[i].name != files[|files| - 1].name;
          SubNamesDiffer(before[i].name, last.name);
        }
        ApartAppend(SubSources(before), SubSources(files)[|SubSources(before)|], SubName(last.name));
      } else {
        assert SubSources(files) == SubSources(before);
      }
    }
  }

  lemma {:induction false} AllNamesStartWithPlugin<C>(dirs: seq<Dir<C>>, i: nat)
    requires i < |SkillSources(dirs)|
    ensures exists name :: SkillSources(dirs)[i].name == PLUGIN + name
  {
    var before, last := dirs[..|dirs| - 1], dirs[|dirs| - 1];
    if i < |SkillSources(before)| {
      AllNamesStartWithPlugin(before, i);
    } else {
      assert SkillSources(dirs)[i].name == PLUGIN + last.name;
    }
  }

  /** All files of the walk have different names if and only if there is no skill directory
      `start_<x>` beside a file `_<x>.md`. */
  lemma NamesApartIff<C>(listing: Listing<C>)
    requires DirsApart(listing.dirs) && FilesApart(listing.start)
    ensures NamesApart(Walk(listing)) <==>
            forall name {:trigger HasSkill(listing.dirs, name)} ::
                !(HasSkill(listing.dirs, name) && HasSubFile(listing.start, name))
  {
    var a, b := SkillSources(listing.dirs), SubSources(listing.start);
    var all := a + b;
    SkillNamesApart(listing.dirs);
    SubFileNamesApart(listing.start);
    if NamesApart(all) {
      forall name | HasSkill(listing.dirs, name) ensures !HasSubFile(listing.start, name) {
        NameClashIff(listing, name);
        SkillIsNamed(listing.dirs, name);
        var i :| 0 <= i < |a| && a[i].name == PLUGIN + name;
        forall j | 0 <= j < |b| ensures b[j].name != PLUGIN + name {
          assert all[i].name != all[|a| + j].name;
        }
      }
    }
    if forall name :: !(HasSkill(listing.dirs, name) && HasSubFile(listing.start, name)) {
      forall i, j | 0 <= i < |a| && 0 <= j < |b| ensures a[i].name != b[j].name {
        AllNamesStartWithPlugin(listing.dirs, i);
        var name :| a[i].name == PLUGIN + name;
        NameClashIff(listing, name);
        assert Named(a, name);
        SkillIsNamed(listing.dirs, name);
      }
    }
  }

  // ---- One name for two files ------------------------------------------------------------------

  lemma {:induction false} SkillSourceMember<C>(dirs: seq<Dir<C>>, s: Source<C>)
    ensures s in SkillSources(dirs) <==> exists i :: 0 <= i < |dirs| && dirs[i].skill.Some? && s == SkillSource(dirs[i])
  {
    if dirs != [] {
      var before, last := dirs[..|dirs| - 1], dirs[|dirs| - 1];
      SkillSourceMember(before, s);
      assert forall i {:trigger before[i]} {:trigger dirs[i]} :: 0 <= i < |before| ==> dirs[i] == before[i];
    }
  }

  lemma {:induction false} SubSourceMember<C>(files: seq<File<C>>, s: Source<C>)
    ensures s in SubSources(files) <==>
            exists i :: 0 <= i < |files| && IsSubFile(files[i].name) && s == SubSource(files[i])
  {
    if files != [] {
      var before, last := files[..|files| - 1], files[|files| - 1];
      SubSourceMember(before, s);
      assert forall i {:trigger before[i]} {:trigger files[i]} :: 0 <= i < |before| ==> files[i] == before[i];
    }
  }

  lemma {:induction false} SubFilesAreKept<C>(lib: Library<C>, files: seq<File<C>>)
    ensures Kept(lib, SubSources(files)) == SubSources(files)
  {
    if files != [] {
      var before, last := files[..|files| - 1], files[|files| - 1];
      SubFilesAreKept(lib, before);
      if IsSubFile(last.name) {
        assert SubSources(files)[..|SubSources(files)| - 1] == SubSources(before);
      } else {
        assert SubSources(files) == SubSources(before);
      }
    }
  }

  lemma FirstOfApart<C>(sources: seq<Source<C>>, s: Source<C>)
    requires NamesApart(sources) && s in sources
    ensures FirstNamed(sources, s.name) == Some(s)
  {
    var i :| 0 <= i < |sources| && sources[i] == s;
    OnlyOneOfName(sources, i);
  }

  /** The walk finds a directory's skill before any file of the start directory. */
  lemma DirectoryComesFirst<C>(listing: Listing<C>, i: nat)
    requires DirsApart(listing.dirs) && i < |listing.dirs| && listing.dirs[i].skill.Some?
    ensures FirstNamed(Walk(listing), PLUGIN + listing.dirs[i].name) == Some(SkillSource(listing.dirs[i]))
  {
    var s := SkillSource(listing.dirs[i]);
    SkillSourceMember(listing.dirs, s);
    SkillNamesApart(listing.dirs);
    FirstOfApart(SkillSources(listing.dirs), s);
    FirstNamedConcat(SkillSources(listing.dirs), SubSources(listing.start), s.name);
  }

  /** No skill of that name gets an entry: there is none, or it has no front matter. */
  predicate NoSkillKept<C>(lib: Library<C>, dirs: seq<Dir<C>>, name: Text) {
    forall k {:trigger dirs[k]} :: 0 <= k < |dirs| && dirs[k].name == name && dirs[k].skill.Some? ==>
        !lib.parse(dirs[k].skill.value).hasFrontmatter
  }

  lemma NothingKept<C>(lib: Library<C>, dirs: seq<Dir<C>>, name: Text)
    requires NoSkillKept(lib, dirs, name)
    ensures FirstNamed(Kept(lib, SkillSources(dirs)), PLUGIN + name).None?
  {
    var k := FirstNamed(Kept(lib, SkillSources(dirs)), PLUGIN + name);
    FirstKept(lib, SkillSources(dirs), PLUGIN + name);
    if k.Some? {
      SkillSourceMember(dirs, k.value);
      var i :| 0 <= i < |dirs| && dirs[i].skill.Some? && k.value == SkillSource(dirs[i]);
      PluginNamesAgree(dirs[i].name, name);
    }
  }

  /** Then the entry of the name is that of the start file. */
  lemma StartFileIsKept<C>(lib: Library<C>, listing: Listing<C>, j: nat)
    requires FilesApart(listing.start) && j < |listing.start| && IsSubFile(listing.start[j].name)
    requires NoSkillKept(lib, listing.dirs, SubName(listing.start[j].name))
    ensures FirstNamed(Kept(lib, Walk(listing)),
            PLUGIN + SubName(listing.start[j].name)) == Some(SubSource(listing.start[j]))
  {
    var s, a, b := SubSource(listing.start[j]), SkillSources(listing.dirs), SubSources(listing.start);
    NothingKept(lib, listing.dirs, SubName(listing.start[j].name));
    KeptConcat(lib, a, b);
    SubFilesAreKept(lib, listing.start);
    SubFileNamesApart(listing.start);
    SubSourceMember(listing.start, s);
    FirstOfApart(b, s);
    FirstNamedConcat(Kept(lib, a), b, s.name);
  }

  /** The trees for which bundle and files disagree with no warning: a skill directory
      `start_<x>` now stands beside a file `_<x>.md`, and when the bundle was built it was not
      there yet or was skipped. The bundle serves the file of the start directory, the files
      give the skill of the directory, and they agree only when the two read alike. */
  lemma ShadowedStartFile<C(!new)>(lib: Library<C>, before: Listing<C>, after: Listing<C>, i: nat, j: nat, now: Text,
      read: Text -> Option<C>)
    requires FilesApart(before.start) && j < |before.start| && IsSubFile(before.start[j].name)
    requires DirsApart(after.dirs) && i < |after.dirs| && after.dirs[i].skill.Some?
             && after.dirs[i].name == SubName(before.start[j].name)
    requires NoSkillKept(lib, before.dirs, after.dirs[i].name)
    requires read(SKILLS_START + before.start[j].name) == Some(before.start[j].content)
    ensures var name, sub, dir := PLUGIN + after.dirs[i].name, lib.parse(before.start[j].content),
            lib.parse(after.dirs[i].skill.value);
            var served := Serve(lib, Some(BundleOf(lib, Walk(before), now)), name, read, Walk(after));
            && served == FromBundle(Skill(sub.frontmatter, sub.body), false)
            && ReadSkillFromDisk(lib, Walk(after), name) == Some(Skill(dir.frontmatter, dir.body))
            && (ReadSkillFromDisk(lib, Walk(after), name) == Some(served.skill) <==> SameSkill(sub, dir))
  {
    var name := PLUGIN + after.dirs[i].name;
    StartFileIsKept(lib, before, j);
    BuiltEntry(lib, Walk(before), now, name);
    DirectoryComesFirst(after, i);
  }

  // ---- Agreement, read off two listings ---------------------------------------------------------

  function SkillPath(name: Text): Text {
    SKILLS + name + SKILL_MD
  }

  /** What can be read is what the listing has. */
  ghost predicate Reads<C(!new)>(read: Text -> Option<C>, listing: Listing<C>) {
    && (forall i {:trigger listing.dirs[i]} :: 0 <= i < |listing.dirs| && listing.dirs[i].skill.Some? ==>
          read(SkillPath(listing.dirs[i].name)) == listing.dirs[i].skill)
    && (forall j {:trigger listing.start[j]} :: 0 <= j < |listing.start| ==>
          read(SKILLS_START + listing.start[j].name) == Some(listing.start[j].content))
    && (forall name {:trigger SkillPath(name)} :: read(SkillPath(name)).Some? ==> HasSkill(listing.dirs, name))
    && (forall name {:trigger SKILLS_START + name} :: read(SKILLS_START + name).Some? ==>
          exists j {:trigger listing.start[j]} :: 0 <= j < |listing.start| && listing.start[j].name == name)
  }

  /** The name had a skill directory with front matter when the bundle was built. */
  predicate BundledDirectory<C>(lib: Library<C>, dirs: seq<Dir<C>>, name: Text) {
    !NoSkillKept(lib, dirs, name)
  }

  /** The file that the entry of a name was built from. */
  function Bundled<C>(lib: Library<C>, listing: Listing<C>, name: Text): Option<Source<C>> {
    FirstNamed(Kept(lib, Walk(listing)), PLUGIN + name)
  }

  lemma BundledFromDirectory<C>(lib: Library<C>, listing: Listing<C>, name: Text) returns (i: nat)
    requires DirsApart(listing.dirs) && BundledDirectory(lib, listing.dirs, name)
    ensures i < |listing.dirs| && listing.dirs[i].skill.Some? && listing.dirs[i].name == name
    ensures Bundled(lib, listing, name) == Some(SkillSource(listing.dirs[i]))
  {
    i :| 0 <= i < |listing.dirs| && listing.dirs[i].name == name && listing.dirs[i].skill.Some?
         && lib.parse(listing.dirs[i].skill.value).hasFrontmatter;
    DirectoryComesFirst(listing, i);
    FirstKept(lib, Walk(listing), PLUGIN + name);
  }

  lemma BundledFromStart<C>(lib: Library<C>, listing: Listing<C>, name: Text) returns (j: nat)
    requires FilesApart(listing.start) && !BundledDirectory(lib, listing.dirs, name)
             && Bundled(lib, listing, name).Some?
    ensures j < |listing.start| && IsSubFile(listing.start[j].name) && SubName(listing.start[j].name) == name
    ensures Bundled(lib, listing, name) == Some(SubSource(listing.start[j]))
  {
    var a, b := SkillSources(listing.dirs), SubSources(listing.start);
    var k := Bundled(lib, listing, name).value;
    NothingKept(lib, listing.dirs, name);
    KeptConcat(lib, a, b);
    SubFilesAreKept(lib, listing.start);
    FirstNamedConcat(Kept(lib, a), b, PLUGIN + name);
    FirstNamedIs(b, PLUGIN + name);
    SubSourceMember(listing.start, k);
    j :| 0 <= j < |listing.start| && IsSubFile(listing.start[j].name) && k == SubSource(listing.start[j]);
    PluginNamesAgree(SubName(listing.start[j].name), name);
  }

  lemma StartFileIsFirst<C>(listing: Listing<C>, name: Text, j: nat)
    requires FilesApart(listing.start) && !HasSkill(listing.dirs, name)
    requires j < |listing.start| && IsSubFile(listing.start[j].name) && SubName(listing.start[j].name) == name
    ensures FirstNamed(Walk(listing), PLUGIN + name) == Some(SubSource(listing.start[j]))
  {
    var a, b := SkillSources(listing.dirs), SubSources(listing.start);
    SkillIsNamed(listing.dirs, name);
    FirstNamedIs(a, PLUGIN + name);
    SubFileNamesApart(listing.start);
    SubSourceMember(listing.start, SubSource(listing.start[j]));
    FirstOfApart(b, SubSource(listing.start[j]));
    FirstNamedConcat(a, b, PLUGIN + name);
  }

  /** When the two files read alike, for a name with a skill directory now. */
  ghost predicate ReadAlike<C>(lib: Library<C>, dirs: seq<Dir<C>>, name: Text, content: C) {
    forall i {:trigger dirs[i]} :: 0 <= i < |dirs| && dirs[i].name == name && dirs[i].skill.Some? ==>
      SameSkill(lib.parse(dirs[i].skill.value), lib.parse(content))
  }

  lemma DirectoryEntryAgrees<C(!new)>(lib: Library<C>, before: Listing<C>, after: Listing<C>, name: Text,
      read: Text -> Option<C>)
    requires DirsApart(before.dirs) && DirsApart(after.dirs) && Reads(read, after)
    requires BundledDirectory(lib, before.dirs, name)
    requires var k := Bundled(lib, before, name); k.Some? && read(k.value.path).Some?
    ensures var k, m := Bundled(lib, before, name).value, FirstNamed(Walk(after), PLUGIN + name);
            m.Some? && read(k.path) == Some(m.value.content)
  {
    var i := BundledFromDirectory(lib, before, name);
    assert Bundled(lib, before, name).value.path == SkillPath(name);
    var n :| 0 <= n < |after.dirs| && after.dirs[n].skill.Some? && after.dirs[n].name == name;
    DirectoryComesFirst(after, n);
  }

  lemma StartEntryAgrees<C(!new)>(lib: Library<C>, before: Listing<C>, after: Listing<C>, name: Text,
      read: Text -> Option<C>)
    requires FilesApart(before.start) && DirsApart(after.dirs) && FilesApart(after.start) && Reads(read, after)
    requires !BundledDirectory(lib, before.dirs, name)
    requires var k := Bundled(lib, before, name); k.Some? && read(k.value.path).Some?
    ensures var content, m := read(Bundled(lib, before, name).value.path).value, FirstNamed(Walk(after), PLUGIN + name);
            m.Some? && (SameSkill(lib.parse(m.value.content), lib.parse(content)) <==>
                ReadAlike(lib, after.dirs, name, content))
  {
    var j := BundledFromStart(lib, before, name);
    var file := before.start[j].name;
    assert Bundled(lib, before, name).value.path == SKILLS_START + file;
    if HasSkill(after.dirs, name) {
      var n :| 0 <= n < |after.dirs| && after.dirs[n].skill.Some? && after.dirs[n].name == name;
      DirectoryComesFirst(after, n);
    } else {
      var n :| 0 <= n < |after.start| && after.start[n].name == file;
      StartFileIsFirst(after, name, n);
    }
  }

  /** A bundle built from one listing and served, with no stale warning while the entry's file
      can be read, under another: it agrees with the files if and only if the entry came from a
      skill directory, or there is no skill directory of that name now, or that directory's
      skill reads like the start file the entry came from. */
  lemma AgreesOnListingsIff<C(!new)>(lib: Library<C>, before: Listing<C>, after: Listing<C>, name: Text, now: Text,
      read: Text -> Option<C>)
    requires NoCollisions(lib) && Reads(read, after)
    requires DirsApart(before.dirs) && FilesApart(before.start) && DirsApart(after.dirs) && FilesApart(after.start)
    requires var e := FindName(BundleOf(lib, Walk(before), now).entries, PLUGIN + name);
             e.Some? && read(e.value.path).Some? && !Stale(lib, e.value, read)
    ensures var e := FindName(BundleOf(lib, Walk(before), now).entries, PLUGIN + name).value;
            var served := Serve(lib, Some(BundleOf(lib, Walk(before), now)), PLUGIN + name, read, Walk(after));
            && served.FromBundle? && !served.staleWarn
            && (ReadSkillFromDisk(lib, Walk(after), PLUGIN + name) == Some(served.skill) <==>
                BundledDirectory(lib, before.dirs, name) || ReadAlike(lib, after.dirs, name, read(e.path).value))
  {
    BuiltEntry(lib, Walk(before), now, PLUGIN + name);
    BundleAgreesWithDiskIff(lib, Walk(before), now, PLUGIN + name, read, Walk(after));
    if BundledDirectory(lib, before.dirs, name) {
      DirectoryEntryAgrees(lib, before, after, name, read);
    } else {
      StartEntryAgrees(lib, before, after, name, read);
    }
  }

  // ---- The walk, letter by letter ------------------------------------------------------------

  lemma WordsAreSpelled()
    ensures PLUGIN == Ascii("agent-flywheel:") && SKILLS == Ascii("skills/") && SKILL_MD == Ascii("/SKILL.md")
  {
  }

  lemma StartWordsAreSpelled()
    ensures START == Ascii("start_") && DOT_MD == Ascii(".md") && [UNDERSCORE] == Ascii("_")
    ensures SKILLS_START == Ascii("skills/start/")
  {
  }

  /** The name and the path of a skill, and what else it takes from its directory. */
  lemma SkillIsSpelled<C>(dir: Dir<C>)
    requires dir.skill.Some?
    ensures var s := SkillSource(dir);
            && s.name == Ascii("agent-flywheel:") + dir.name
            && s.path == Ascii("skills/") + dir.name + Ascii("/SKILL.md")
            && !s.subFile && s.content == dir.skill.value && s.references == dir.references
            && s.largestReference == dir.largestReference
  {
    WordsAreSpelled();
  }

  lemma SubNameIs(file: Text, x: Text)
    requires file == ([UNDERSCORE] + x) + DOT_MD
    ensures IsSubFile(file) && SubName(file) == START + x
  {
    assert file[|file| - 3..] == DOT_MD && file[1..|file| - 3] == x;
  }

  /** The name and the path of a start file, and what else it takes from it. */
  lemma StartFileIsSpelled<C>(x: Text, content: C)
    ensures var file := File((Ascii("_") + x) + Ascii(".md"), content);
            && IsSubFile(file.name)
            && var s := SubSource(file);
               && s.name == Ascii("agent-flywheel:") + (Ascii("start_") + x)
               && s.path == Ascii("skills/start/") + file.name
               && s.subFile && s.content == content && s.references.None?
  {
    WordsAreSpelled();
    StartWordsAreSpelled();
    SubNameIs((Ascii("_") + x) + Ascii(".md"), x);
  }

  /** A file of the start directory is left out unless it is called `_<x>.md`. */
  lemma SubFileIff(name: Text)
    ensures IsSubFile(name) <==> exists x :: name == (Ascii("_") + x) + Ascii(".md")
  {
    assert DOT_MD == Ascii(".md");
    if IsSubFile(name) {
      var x := name[1..|name| - 3];
      assert name == (Ascii("_") + x) + Ascii(".md");
    }
    if x :| name == (Ascii("_") + x) + Ascii(".md") {
      assert name[0] == UNDERSCORE && name[|name| - 3..] == DOT_MD;
    }
  }

  /** The skills of a walk, one for each directory that has one, in the order of the directories. */
  lemma {:induction false} SkillsInOrder<C>(dirs: seq<Dir<C>>) returns (at: seq<nat>)
    ensures Chosen(at, |dirs|) && |at| == |SkillSources(dirs)|
    ensures forall j {:trigger at[j]} :: 0 <= j < |at| ==>
              dirs[at[j]].skill.Some? && SkillSources(dirs)[j] == SkillSource(dirs[at[j]])
    ensures forall i {:trigger dirs[i]} :: 0 <= i < |dirs| && dirs[i].skill.Some? ==> i in at
  {
    at := [];
    if dirs != [] {
      var front, last := dirs[..|dirs| - 1], dirs[|dirs| - 1];
      var before := SkillsInOrder(front);
      ChooseNext(before, |front|);
      at := if last.skill.None? then before else before + [|front|];
      forall i | 0 <= i < |dirs| && dirs[i].skill.Some? ensures i in at {
        assert i < |front| ==> dirs[i] == front[i] && i in before;
        StaysChosen(before, |front|, i);
      }
      forall j | 0 <= j < |at| ensures dirs[at[j]].skill.Some? && SkillSources(dirs)[j] == SkillSource(dirs[at[j]]) {
        assert j < |before| ==> front[before[j]] == dirs[before[j]];
        assert j < |before| ==> SkillSources(front)[j] == SkillSource(front[before[j]]);
      }
    }
  }

  /** The files of the start directory, in their order. */
  lemma {:induction false} StartFilesInOrder<C>(files: seq<File<C>>) returns (at: seq<nat>)
    ensures Chosen(at, |files|) && |at| == |SubSources(files)|
    ensures forall j {:trigger at[j]} :: 0 <= j < |at| ==>
              IsSubFile(files[at[j]].name) && SubSources(files)[j] == SubSource(files[at[j]])
    ensures forall i {:trigger files[i]} :: 0 <= i < |files| && IsSubFile(files[i].name) ==> i in at
  {
    at := [];
    if files != [] {
      var front, last := files[..|files| - 1], files[|files| - 1];
      var before := StartFilesInOrder(front);
      ChooseNext(before, |front|);
      at := if !IsSubFile(last.name) then before else before + [|front|];
      forall i | 0 <= i < |files| && IsSubFile(files[i].name) ensures i in at {
        assert i < |front| ==> files[i] == front[i] && i in before;
        StaysChosen(before, |front|, i);
      }
      forall j | 0 <= j < |at| ensures IsSubFile(files[at[j]].name) && SubSources(files)[j] == SubSource(files[at[j]]) {
        assert j < |before| ==> front[before[j]] == files[before[j]];
        assert j < |before| ==> SubSources(front)[j] == SubSource(front[before[j]]);
      }
    }
  }
}
