/** Checks on a plan: execution order, parallel groups, files that parallel beads
    share, and files the repository does not have. */
module PlanSimulation {
  import opened Beads
  import opened Graphs
  import opened OrderedMaps
  import opened Selections
  import opened Sorting
  import ExecutionOrder
  import ParallelGroups

  datatype FileConflict<Id> = FileConflict(file: Text, beadIds: seq<Id>)

  datatype MissingFileRef<Id> = MissingFileRef(beadId: Id, file: Text)

  datatype SimulationResult<Id> = SimulationResult(
    valid: bool,
    executionOrder: seq<Id>,
    parallelGroups: seq<seq<Id>>,
    fileConflicts: seq<FileConflict<Id>>,
    missingFiles: seq<MissingFileRef<Id>>)

  type BeadsById<Id> = map<Id, SimulatedBead<Id>>

  // ---- Who touches a file ----------------------------------------------------

  /** `id` once for every time `file` is listed. */
  function Mentions<Id(!new)>(id: Id, files: seq<Text>, file: Text): seq<Id> {
    if files == [] then []
    else Mentions(id, files[..|files| - 1], file) + (if files[|files| - 1] == file then [id] else [])
  }

  /** The beads of a group that list `file`, in group order, with repetitions. */
  function Touching<Id(!new)>(beads: BeadsById<Id>, group: seq<Id>, file: Text): seq<Id> {
    if group == [] then []
    else
      var id := group[|group| - 1];
      Touching(beads, group[..|group| - 1], file) + (if id in beads then Mentions(id, beads[id].files, file) else [])
  }

  /** All files of a group, bead after bead. */
  function Listing<Id(!new)>(beads: BeadsById<Id>, group: seq<Id>): seq<Text> {
    if group == [] then []
    else
      var id := group[|group| - 1];
      Listing(beads, group[..|group| - 1]) + (if id in beads then beads[id].files else [])
  }

  /** Each element once, where it first stands. */
  function Firsts(s: seq<Text>): seq<Text> {
    if s == [] then []
    else Firsts(s[..|s| - 1]) + (if s[|s| - 1] in s[..|s| - 1] then [] else [s[|s| - 1]])
  }

  /** The files of some list that are touched more than once, with the beads that touch them. */
  function ConflictsOver<Id(!new)>(beads: BeadsById<Id>, group: seq<Id>, files: seq<Text>): seq<FileConflict<Id>> {
    if files == [] then []
    else
      var f := files[|files| - 1];
      ConflictsOver(beads, group, files[..|files| - 1])
      + (if |Touching(beads, group, f)| > 1 then [FileConflict(f, Touching(beads, group, f))] else [])
  }

  /** The conflicts of one group: each file that is listed more than once in a
      group of two or more, with the beads that list it, in the order in which the
      files are first listed. */
  ghost predicate GroupConflicts<Id(!new)>(beads: BeadsById<Id>, group: seq<Id>, conflicts: seq<FileConflict<Id>>) {
    && (forall i :: 0 <= i < |conflicts| ==>
          && |group| >= 2 && |conflicts[i].beadIds| > 1
          && conflicts[i].beadIds == Touching(beads, group, conflicts[i].file))
    && (forall i, j :: 0 <= i < j < |conflicts| ==> conflicts[i].file != conflicts[j].file)
    && (forall f {:trigger Reported(conflicts, f)} :: |group| >= 2 && |Touching(beads, group, f)| > 1 ==>
        Reported(conflicts, f))
    && (|group| >= 2 ==> conflicts == ConflictsOver(beads, group, Firsts(Listing(beads, group))))
  }

  lemma {:induction false} FirstsMember(s: seq<Text>, x: Text)
    ensures x in Firsts(s) <==> x in s
  {
    if s != [] {
      FirstsMember(s[..|s| - 1], x);
      assert s == s[..|s| - 1] + [s[|s| - 1]];
    }
  }

  /** The keys of the table are the files listed so far, in that order. */
  ghost predicate KeysFollow<Id(!new)>(table: OrderedMap<Text, seq<Id>>, listed: seq<Text>) {
    Valid(table) && table.keys == Firsts(listed)
  }

  lemma FirstsGrow(listed: seq<Text>, file: Text)
    ensures Firsts(listed + [file]) == if file in Firsts(listed) then Firsts(listed) else Firsts(listed) + [file]
  {
    FirstsMember(listed, file);
    assert (listed + [file])[..|listed|] == listed;
    assert Firsts(listed) + [] == Firsts(listed);
  }

  lemma NextKey<Id(!new)>(table: OrderedMap<Text, seq<Id>>, listed: seq<Text>, file: Text, ids: seq<Id>)
    requires KeysFollow(table, listed)
    ensures KeysFollow(Set(table, file, ids), listed + [file])
  {
    SetKeepsValid(table, file, ids);
    FirstsGrow(listed, file);
  }

  lemma ListingGrows<Id(!new)>(beads: BeadsById<Id>, group: seq<Id>, k: nat)
    requires k < |group|
    ensures Listing(beads, group[..k + 1]) == Listing(beads,
            group[..k]) + (if group[k] in beads then beads[group[k]].files else [])
  {
    assert group[..k + 1][..k] == group[..k];
  }

  lemma ConflictsOverGrows<Id(!new)>(beads: BeadsById<Id>, group: seq<Id>, files: seq<Text>, k: nat)
    requires k < |files|
    ensures ConflictsOver(beads, group, files[..k + 1]) ==
            ConflictsOver(beads, group, files[..k])
            + (if |Touching(beads, group,
                files[k])| > 1 then [FileConflict(files[k], Touching(beads, group, files[k]))] else [])
  {
    assert files[..k + 1][..k] == files[..k];
  }

  // ---- The file table of one group -------------------------------------------

  /** What is touched after the whole of `group` and then `files` of bead `id`. */
  function Touched<Id(!new)>(beads: BeadsById<Id>, group: seq<Id>, id: Id, files: seq<Text>, file: Text): seq<Id> {
    Touching(beads, group, file) + Mentions(id, files, file)
  }

  ghost predicate Entry<Id(!new)>(table: OrderedMap<Text, seq<Id>>, beads: BeadsById<Id>, group: seq<Id>, id: Id,
      files: seq<Text>, file: Text) {
    (if file in table.entries then table.entries[file] else []) == Touched(beads, group, id, files, file)
  }

  ghost predicate TableOf<Id(!new)>(table: OrderedMap<Text, seq<Id>>, beads: BeadsById<Id>, group: seq<Id>, id: Id,
      files: seq<Text>) {
    && Valid(table)
    && forall f {:trigger Entry(table, beads, group, id, files, f)} :: Entry(table, beads, group, id, files, f)
  }

  lemma TouchedGrows<Id(!new)>(beads: BeadsById<Id>, group: seq<Id>, id: Id, done: seq<Text>, file: Text, f: Text)
    ensures Touched(beads, group, id, done + [file], f) == Touched(beads, group, id, done, f) + (if f == file then [id]
            else [])
  {
    assert (done + [file])[..|done|] == done;
  }

  lemma AddFileEntry<Id(!new)>(table: OrderedMap<Text, seq<Id>>, beads: BeadsById<Id>, group: seq<Id>, id: Id,
      done: seq<Text>, file: Text, existing: seq<Id>, f: Text)
    requires existing == (if file in table.entries then table.entries[file] else [])
    requires Entry(table, beads, group, id, done, f)
    ensures Entry(Set(table, file, existing + [id]), beads, group, id, done + [file], f)
  {
    TouchedGrows(beads, group, id, done, file, f);
    assert f != file ==> Touched(beads, group, id, done, f) + [] == Touched(beads, group, id, done, f);
  }

  lemma AddFile<Id(!new)>(table: OrderedMap<Text, seq<Id>>, beads: BeadsById<Id>, group: seq<Id>, id: Id,
      done: seq<Text>, file: Text, existing: seq<Id>)
    requires existing == (if file in table.entries then table.entries[file] else [])
    requires TableOf(table, beads, group, id, done)
    ensures TableOf(Set(table, file, existing + [id]), beads, group, id, done + [file])
  {
    SetKeepsValid(table, file, existing + [id]);
    var after, all := Set(table, file, existing + [id]), done + [file];
    forall f ensures Entry(after, beads, group, id, all, f) {
      assert Entry(table, beads, group, id, done, f);
      AddFileEntry(table, beads, group, id, done, file, existing, f);
    }
  }

  lemma NextBead<Id(!new)>(table: OrderedMap<Text, seq<Id>>, beads: BeadsById<Id>, front: seq<Id>, id: Id, next: Id)
    requires TableOf(table, beads, front, id, if id in beads then beads[id].files else [])
    ensures TableOf(table, beads, front + [id], next, [])
  {
    var files := if id in beads then beads[id].files else [];
    var all := front + [id];
    assert all[..|front|] == front;
    forall f ensures Entry(table, beads, all, next, [], f) {
      assert Entry(table, beads, front, id, files, f);
      assert Touched(beads, all, next, [], f) == Touched(beads, front, id, files, f);
    }
  }

  lemma SameTable<Id(!new)>(table: OrderedMap<Text, seq<Id>>, beads: BeadsById<Id>, group: seq<Id>, a: Id, b: Id)
    requires TableOf(table, beads, group, a, [])
    ensures TableOf(table, beads, group, b, [])
  {
    forall f ensures Entry(table, beads, group, b, [], f) {
      assert Entry(table, beads, group, a, [], f);
      assert Touched(beads, group, a, [], f) == Touched(beads, group, b, [], f);
    }
  }

  method BuildFileTable<Id(==,!new)>(beads: BeadsById<Id>, group: seq<Id>) returns (table: OrderedMap<Text, seq<Id>>)
    requires group != []
    ensures TableOf(table, beads, group, group[0], []) && KeysFollow(table, Listing(beads, group))
  {
    table := Empty();
    forall f ensures Entry(table, beads, [], group[0], [], f) {}
    for k := 0 to |group|
      invariant TableOf(table, beads, group[..k], group[0], []) && KeysFollow(table, Listing(beads, group[..k]))
    {
      var id := group[k];
      SameTable(table, beads, group[..k], group[0], id);
      ListingGrows(beads, group, k);
      ghost var before := Listing(beads, group[..k]);
      assert before + [] == before;
      if id in beads {
        table := AddFiles(table, beads, group[..k], id, before, beads[id].files);
      }
      NextBead(table, beads, group[..k], id, group[0]);
      assert group[..k + 1] == group[..k] + [id];
    }
    assert group[..|group|] == group;
  }

  ghost predicate Filling<Id(!new)>(table: OrderedMap<Text, seq<Id>>, beads: BeadsById<Id>, front: seq<Id>, id: Id,
      before: seq<Text>, done: seq<Text>) {
    TableOf(table, beads, front, id, done) && KeysFollow(table, before + done)
  }

  lemma FillNext<Id(!new)>(table: OrderedMap<Text, seq<Id>>, beads: BeadsById<Id>, front: seq<Id>, id: Id,
      before: seq<Text>,
      done: seq<Text>, file: Text, existing: seq<Id>)
    requires Filling(table, beads, front, id, before, done)
    requires existing == (if file in table.entries then table.entries[file] else [])
    ensures Filling(Set(table, file, existing + [id]), beads, front, id, before, done + [file])
  {
    AddFile(table, beads, front, id, done, file, existing);
    NextKey(table, before + done, file, existing + [id]);
    assert before + (done + [file]) == (before + done) + [file];
  }

  /** The files of one bead enter the table. */
  method AddFiles<Id(==,!new)>(table0: OrderedMap<Text, seq<Id>>, ghost beads: BeadsById<Id>, ghost front: seq<Id>,
      id: Id, ghost before: seq<Text>, files: seq<Text>)
    returns (table: OrderedMap<Text, seq<Id>>)
    requires Filling(table0, beads, front, id, before, [])
    ensures Filling(table, beads, front, id, before, files)
  {
    table := table0;
    for j := 0 to |files|
      invariant Filling(table, beads, front, id, before, files[..j])
    {
      assert files[..j + 1] == files[..j] + [files[j]];
      table := AddOneFile(table, beads, front, id, before, files[..j], files[j]);
    }
    assert files[..|files|] == files;
  }

  method AddOneFile<Id(==,!new)>(table0: OrderedMap<Text, seq<Id>>, ghost beads: BeadsById<Id>, ghost front: seq<Id>,
      id: Id, ghost before: seq<Text>, ghost done: seq<Text>, file: Text)
    returns (table: OrderedMap<Text, seq<Id>>)
    requires Filling(table0, beads, front, id, before, done)
    ensures Filling(table, beads, front, id, before, done + [file])
  {
    var existing := if file in table0.entries then table0.entries[file] else [];
    FillNext(table0, beads, front, id, before, done, file, existing);
    table := Set(table0, file, existing + [id]);
  }

  // ---- Conflicts -------------------------------------------------------------

  method DetectInGroup<Id(==,!new)>(beads: BeadsById<Id>, group: seq<Id>) returns (conflicts: seq<FileConflict<Id>>)
    ensures GroupConflicts(beads, group, conflicts)
  {
    conflicts := [];
    if |group| < 2 {
      return;
    }
    var fileToBeads := BuildFileTable(beads, group);
    for k := 0 to |fileToBeads.keys|
      invariant conflicts == ConflictsOver(beads, group, fileToBeads.keys[..k])
    {
      var file := fileToBeads.keys[k];
      assert file in fileToBeads.keys;
      TableEntry(fileToBeads, beads, group, file);
      ConflictsOverGrows(beads, group, fileToBeads.keys, k);
      if |fileToBeads.entries[file]| > 1 {
        conflicts := conflicts + [FileConflict(file, fileToBeads.entries[file])];
      }
    }
    assert fileToBeads.keys[..|fileToBeads.keys|] == fileToBeads.keys;
    TableConflicts(fileToBeads, beads, group);
  }

  lemma {:induction false} ConflictsOverUnique<Id(!new)>(beads: BeadsById<Id>, group: seq<Id>, files: seq<Text>,
      touching: Text -> seq<Id>)
    requires Unique(files) && forall f {:trigger touching(f)} :: touching(f) == Touching(beads, group, f)
    ensures ConflictsAmong(touching, files, ConflictsOver(beads, group, files))
  {
    if files != [] {
      var front, file := files[..|files| - 1], files[|files| - 1];
      ConflictsOverUnique(beads, group, front, touching);
      assert files == front + [file] && touching(file) == Touching(beads, group, file);
      assert ConflictsOver(beads, group, front) + [] == ConflictsOver(beads, group, front);
      NextFile(touching, front, file, ConflictsOver(beads, group, front));
    }
  }

  lemma TableConflicts<Id(!new)>(table: OrderedMap<Text, seq<Id>>, beads: BeadsById<Id>, group: seq<Id>)
    requires |group| >= 2 && TableOf(table, beads, group, group[0], []) && KeysFollow(table, Listing(beads, group))
    ensures GroupConflicts(beads, group, ConflictsOver(beads, group, table.keys))
  {
    var conflicts := ConflictsOver(beads, group, table.keys);
    var touching := (f: Text) => Touching(beads, group, f);
    ConflictsOverUnique(beads, group, table.keys, touching);
    forall f | |Touching(beads, group, f)| > 1 ensures Reported(conflicts, f) {
      TableEntry(table, beads, group, f);
    }
  }

  ghost predicate Reported<Id(!new)>(conflicts: seq<FileConflict<Id>>, f: Text) {
    exists i :: 0 <= i < |conflicts| && conflicts[i].file == f
  }

  /** The conflicts over some of the files. */
  ghost predicate ConflictsAmong<Id(!new)>(touching: Text -> seq<Id>, files: seq<Text>,
      conflicts: seq<FileConflict<Id>>) {
    && (forall i :: 0 <= i < |conflicts| ==>
          && |conflicts[i].beadIds| > 1 && conflicts[i].file in files
          && conflicts[i].beadIds == touching(conflicts[i].file))
    && (forall i, j :: 0 <= i < j < |conflicts| ==> conflicts[i].file != conflicts[j].file)
    && (forall f {:trigger Reported(conflicts, f)} :: f in files && |touching(f)| > 1 ==> Reported(conflicts, f))
  }

  lemma NextFile<Id(!new)>(touching: Text -> seq<Id>, files: seq<Text>, file: Text, conflicts: seq<FileConflict<Id>>)
    requires ConflictsAmong(touching, files, conflicts) && file !in files
    ensures |touching(file)| > 1 ==>
            ConflictsAmong(touching, files + [file], conflicts + [FileConflict(file, touching(file))])
    ensures |touching(file)| <= 1 ==> ConflictsAmong(touching, files + [file], conflicts)
  {
    var all, after := files + [file], conflicts + [FileConflict(file, touching(file))];
    assert after[|conflicts|].file == file;
    assert Reported(after, file);
    forall f | f in files && |touching(f)| > 1 ensures Reported(after, f) {
      assert Reported(conflicts, f);
      var i :| 0 <= i < |conflicts| && conflicts[i].file == f;
      assert after[i].file == f;
    }
    forall i | 0 <= i < |conflicts| ensures conflicts[i].file != file {}
  }

  lemma TableEntry<Id(!new)>(table: OrderedMap<Text, seq<Id>>, beads: BeadsById<Id>, group: seq<Id>, f: Text)
    requires group != [] && TableOf(table, beads, group, group[0], [])
    ensures (if f in table.entries then table.entries[f] else []) == Touching(beads, group, f)
  {
    assert Entry(table, beads, group, group[0], [], f);
    assert Touching(beads, group, f) + [] == Touching(beads, group, f);
  }

  function Flatten<T>(parts: seq<seq<T>>): seq<T> {
    if parts == [] then [] else Flatten(parts[..|parts| - 1]) + parts[|parts| - 1]
  }

  /** The conflicts of every group, group after group. */
  method DetectFileConflicts<Id(==,!new)>(beads: seq<SimulatedBead<Id>>, parallelGroups: seq<seq<Id>>)
    returns (conflicts: seq<FileConflict<Id>>, ghost parts: seq<seq<FileConflict<Id>>>)
    ensures conflicts == Flatten(parts) && |parts| == |parallelGroups|
    ensures forall i :: 0 <= i < |parts| ==> GroupConflicts(ParallelGroups.BeadMap(beads), parallelGroups[i], parts[i])
  {
    var beadMap := ParallelGroups.BeadMap(beads);
    conflicts, parts := [], [];
    for k := 0 to |parallelGroups|
      invariant conflicts == Flatten(parts) && |parts| == k
      invariant forall i :: 0 <= i < k ==> GroupConflicts(beadMap, parallelGroups[i], parts[i])
    {
      var found := DetectInGroup(beadMap, parallelGroups[k]);
      conflicts := conflicts + found;
      ghost var before := parts;
      parts := parts + [found];
      assert parts[..k] == before;
    }
  }

  method DetectMissingFiles<Id(==,!new)>(beads: seq<SimulatedBead<Id>>, repoFiles: set<Text>)
      returns (missing: seq<MissingFileRef<Id>>)
    ensures forall id, f :: MissingFileRef(id, f) in missing <==>
              f !in repoFiles && exists i :: 0 <= i < |beads| && beads[i].id == id && f in beads[i].files
  {
    missing := [];
    for k := 0 to |beads|
      invariant forall id, f :: MissingFileRef(id, f) in missing <==>
                  f !in repoFiles && exists i :: 0 <= i < k && beads[i].id == id && f in beads[i].files
    {
      var bead := beads[k];
      for j := 0 to |bead.files|
        invariant forall id, f :: MissingFileRef(id, f) in missing <==>
                    f !in repoFiles && ((exists i :: 0 <= i < k && beads[i].id == id && f in beads[i].files)
                                        || (id == bead.id && f in bead.files[..j]))
      {
        assert bead.files[..j + 1] == bead.files[..j] + [bead.files[j]];
        if bead.files[j] !in repoFiles {
          missing := missing + [MissingFileRef(bead.id, bead.files[j])];
        }
      }
      assert bead.files[..|bead.files|] == bead.files;
    }
  }

  // ---- In which order ---------------------------------------------------------------------

  lemma {:induction false} MentionsRepeat<Id(!new)>(id: Id, files: seq<Text>, f: Text)
    ensures |Mentions(id, files, f)| == multiset(files)[f]
    ensures forall j {:trigger Mentions(id, files, f)[j]} :: 0 <= j < |Mentions(id, files, f)| ==>
            Mentions(id, files, f)[j] == id
  {
    if files != [] {
      var front := files[..|files| - 1];
      assert files == front + [files[|files| - 1]];
      MentionsRepeat(id, front, f);
    }
  }

  lemma {:induction false} TouchingConcat<Id(!new)>(beads: BeadsById<Id>, a: seq<Id>, b: seq<Id>, f: Text)
    ensures Touching(beads, a + b, f) == Touching(beads, a, f) + Touching(beads, b, f)
  {
    if b == [] {
      assert a + b == a;
    } else {
      assert (a + b)[..|a + b| - 1] == a + b[..|b| - 1];
      TouchingConcat(beads, a, b[..|b| - 1], f);
    }
  }

  /** The beads of a conflict stand in the order of the group, each as often as it lists the file. */
  lemma TouchingInGroupOrder<Id(!new)>(beads: BeadsById<Id>, a: seq<Id>, id: Id, b: seq<Id>, f: Text)
      returns (own: seq<Id>)
    ensures Touching(beads, (a + [id]) + b, f) == (Touching(beads, a, f) + own) + Touching(beads, b, f)
    ensures |own| == if id in beads then multiset(beads[id].files)[f] else 0
    ensures forall j {:trigger own[j]} :: 0 <= j < |own| ==> own[j] == id
  {
    own := if id in beads then Mentions(id, beads[id].files, f) else [];
    if id in beads {
      MentionsRepeat(id, beads[id].files, f);
    }
    TouchingConcat(beads, a + [id], b, f);
    TouchingConcat(beads, a, [id], f);
    assert [id][..0] == [] && Touching(beads, [], f) == [];
    assert Touching(beads, [id], f) == [] + own;
  }

  predicate FirstAt(s: seq<Text>, i: nat) {
    i < |s| && s[i] !in s[..i]
  }

  lemma FirstAtKept(front: seq<Text>, last: Text, i: nat)
    requires i < |front|
    ensures (front + [last])[i] == front[i] && (FirstAt(front + [last], i) <==> FirstAt(front, i))
  {
    assert (front + [last])[..i] == front[..i];
  }

  lemma FirstAtEnd(front: seq<Text>, last: Text)
    ensures FirstAt(front + [last], |front|) <==> last !in front
    ensures Firsts(front + [last]) == Firsts(front) + (if last in front then [] else [last])
  {
    assert (front + [last])[..|front|] == front;
  }

  /** Each element once, at the place where it first stands. */
  lemma {:induction false} FirstsStandFirst(s: seq<Text>) returns (at: seq<nat>)
    ensures Chosen(at, |s|) && |at| == |Firsts(s)|
    ensures forall j {:trigger at[j]} :: 0 <= j < |at| ==> Firsts(s)[j] == s[at[j]]
    ensures forall i {:trigger FirstAt(s, i)} :: 0 <= i < |s| ==> (i in at <==> FirstAt(s, i))
  {
    at := [];
    if s != [] {
      var front, last := s[..|s| - 1], s[|s| - 1];
      var n := |front|;
      assert s == front + [last];
      FirstAtEnd(front, last);
      var before := FirstsStandFirst(front);
      ChooseNext(before, n);
      at := if last !in front then before + [n] else before;
      forall i {:trigger FirstAt(s, i)} | 0 <= i < |s| ensures i in at <==> FirstAt(s, i) {
        TakenOrNot(before, n, i, last !in front);
        if i < n {
          FirstAtKept(front, last, i);
        }
      }
      forall j | 0 <= j < |at| ensures Firsts(s)[j] == s[at[j]] {
        assert j < |before| ==> front[before[j]] == s[before[j]];
      }
    }
  }

  lemma {:induction false} ListingConcat<Id(!new)>(beads: BeadsById<Id>, a: seq<Id>, id: Id)
    ensures Listing(beads, a + [id]) == Listing(beads, a) + (if id in beads then beads[id].files else [])
    ensures Listing(beads, []) == []
  {
    assert (a + [id])[..|a|] == a;
  }

  /** The conflicts of a list of files: those touched more than once, in the order of the list. */
  lemma {:induction false} ConflictsPick<Id(!new)>(beads: BeadsById<Id>, group: seq<Id>, files: seq<Text>)
      returns (at: seq<nat>)
    ensures Chosen(at, |files|) && |at| == |ConflictsOver(beads, group, files)|
    ensures forall j {:trigger at[j]} :: 0 <= j < |at| ==>
              ConflictsOver(beads, group, files)[j] == FileConflict(files[at[j]], Touching(beads, group, files[at[j]]))
    ensures forall i {:trigger files[i]} :: 0 <= i < |files| ==> (i in at <==> |Touching(beads, group, files[i])| > 1)
  {
    at := [];
    if files != [] {
      var front, last := files[..|files| - 1], files[|files| - 1];
      var before := ConflictsPick(beads, group, front);
      ChooseNext(before, |front|);
      var taken := |Touching(beads, group, last)| > 1;
      at := if taken then before + [|front|] else before;
      forall i {:trigger files[i]} | 0 <= i < |files| ensures i in at <==> |Touching(beads, group, files[i])| > 1 {
        TakenOrNot(before, |front|, i, taken);
        assert i < |front| ==> files[i] == front[i];
      }
      forall j | 0 <= j < |at|
        ensures ConflictsOver(beads, group, files)[j]
                == FileConflict(files[at[j]], Touching(beads, group, files[at[j]]))
      {
        assert j < |before| ==> front[before[j]] == files[before[j]];
      }
    }
  }

  /** One list after another. */
  lemma FlattenInOrder<T>(parts: seq<seq<T>>, last: seq<T>)
    ensures Flatten<T>([]) == [] && Flatten(parts + [last]) == Flatten(parts) + last
  {
    assert (parts + [last])[..|parts|] == parts;
  }

  // ---- Orchestration ---------------------------------------------------------

  ghost predicate MissingFilesOf<Id(!new)>(beads: seq<SimulatedBead<Id>>, repoFiles: set<Text>,
      missing: seq<MissingFileRef<Id>>) {
    forall id, f :: MissingFileRef(id, f) in missing <==>
      f !in repoFiles && exists i :: 0 <= i < |beads| && beads[i].id == id && f in beads[i].files
  }

  ghost predicate ConflictsOf<Id(!new)>(beads: seq<SimulatedBead<Id>>, groups: seq<seq<Id>>,
      conflicts: seq<FileConflict<Id>>, parts: seq<seq<FileConflict<Id>>>) {
    && conflicts == Flatten(parts) && |parts| == |groups|
    && forall i :: 0 <= i < |parts| ==> GroupConflicts(ParallelGroups.BeadMap(beads), groups[i], parts[i])
  }

  /** What the simulation reports, check by check. */
  ghost predicate Reports<Id(!new)>(beads: seq<SimulatedBead<Id>>, repoFiles: set<Text>, r: SimulationResult<Id>,
      parts: seq<seq<FileConflict<Id>>>) {
    if ParallelGroups.CanRun(beads) then
      && ExecutionOrder.IsExecutionOrder(beads, r.executionOrder)
      && ParallelGroups.Partition(IdSet(beads), r.parallelGroups)
      && ParallelGroups.GroupedByLevel(DepGraph(beads), IdSet(beads), r.parallelGroups)
      && ParallelGroups.MinimalWaves(beads, r.parallelGroups)
      && ConflictsOf(beads, r.parallelGroups, r.fileConflicts, parts)
      && MissingFilesOf(beads, repoFiles, r.missingFiles)
      && (r.valid <==> r.fileConflicts == [] && r.missingFiles == [])
    else
      r == SimulationResult(false, [], [], [], [])
  }

  method SimulateExecutionPaths<Id(==,!new)>(beads: seq<SimulatedBead<Id>>, repoFiles: set<Text>)
    returns (r: SimulationResult<Id>, ghost parts: seq<seq<FileConflict<Id>>>)
    ensures Reports(beads, repoFiles, r, parts)
    ensures r.valid ==> && ParallelGroups.CanRun(beads) && WavesShareNoFile(beads, r.parallelGroups)
                        && FilesExist(beads, repoFiles)
                        && ParallelGroups.RespectsDeps(DepGraph(beads), IdSet(beads), r.parallelGroups)
    ensures ParallelGroups.CanRun(beads) ==> ParallelGroups.MinimalWaves(beads, r.parallelGroups)
    ensures r.valid <==> && ParallelGroups.CanRun(beads) && WavesShareNoFile(beads, r.parallelGroups)
                         && FilesExist(beads, repoFiles)
                         && NoneListsTwice(beads, r.parallelGroups)
  {
    r, parts := RunChecks(beads, repoFiles);
    VerdictIsExact(beads, repoFiles, r, parts);
    if r.valid {
      ValidPlanIsSafe(beads, repoFiles, r, parts);
    }
  }

  method RunChecks<Id(==,!new)>(beads: seq<SimulatedBead<Id>>, repoFiles: set<Text>)
    returns (r: SimulationResult<Id>, ghost parts: seq<seq<FileConflict<Id>>>)
    ensures Reports(beads, repoFiles, r, parts)
  {
    var order := ExecutionOrder.ComputeExecutionOrder(beads);
    if order.CycleDetected? {
      parts := [];
      return SimulationResult(false, [], [], [], []), parts;
    }
    var parallelGroups := ParallelGroups.ComputeParallelGroups(beads);
    var fileConflicts;
    fileConflicts, parts := DetectFileConflicts(beads, parallelGroups);
    var missingFiles := DetectMissingFiles(beads, repoFiles);
    var valid := |fileConflicts| == 0 && |missingFiles| == 0;
    r := SimulationResult(valid, order.order, parallelGroups, fileConflicts, missingFiles);
  }

  // ---- What a valid plan guarantees ------------------------------------------

  ghost predicate ListsFile<Id(!new)>(beads: seq<SimulatedBead<Id>>, id: Id, f: Text) {
    exists i :: 0 <= i < |beads| && beads[i].id == id && f in beads[i].files
  }

  lemma {:induction false} MentionsMember<Id(!new)>(id: Id, files: seq<Text>, f: Text)
    ensures forall x :: x in Mentions(id, files, f) <==> x == id && f in files
    ensures |Mentions(id, files, f)| == multiset(files)[f]
  {
    if files != [] {
      var front := files[..|files| - 1];
      assert files == front + [files[|files| - 1]];
      MentionsMember(id, front, f);
    }
  }

  lemma {:induction false} TouchingMember<Id(!new)>(beads: BeadsById<Id>, group: seq<Id>, f: Text, x: Id)
    ensures x in Touching(beads, group, f) <==> x in group && x in beads && f in beads[x].files
  {
    if group != [] {
      var front, id := group[..|group| - 1], group[|group| - 1];
      assert group == front + [id];
      TouchingMember(beads, front, f, x);
      if id in beads {
        MentionsMember(id, beads[id].files, f);
      }
    }
  }

  /** Two different beads of a group that list a file are two of those touching it. */
  lemma TwoTouch<Id(!new)>(beads: BeadsById<Id>, group: seq<Id>, f: Text, x: Id, y: Id)
    requires x != y && x in group && y in group && x in beads && y in beads
    requires f in beads[x].files && f in beads[y].files
    ensures |Touching(beads, group, f)| > 1
  {
    TouchingMember(beads, group, f, x);
    TouchingMember(beads, group, f, y);
    TwoMembers(Touching(beads, group, f), x, y);
  }

  /** When no bead of the group lists the file twice, the touching beads are listed once each. */
  lemma {:induction false} TouchingDistinct<Id(!new)>(beads: BeadsById<Id>, group: seq<Id>, f: Text)
    requires Distinct(group) && forall x :: x in group && x in beads ==> multiset(beads[x].files)[f] <= 1
    ensures Distinct(Touching(beads, group, f))
  {
    if group != [] {
      var front, id := group[..|group| - 1], group[|group| - 1];
      assert group == front + [id];
      TouchingDistinct(beads, front, f);
      if id in beads {
        assert id in group && id !in front;
        var touching, own := Touching(beads, front, f), Mentions(id, beads[id].files, f);
        MentionsMember(id, beads[id].files, f);
        TouchingMember(beads, front, f, id);
        forall j | 0 <= j < |own| ensures own[j] == id {
          assert own[j] in own;
        }
        forall i | 0 <= i < |touching| ensures touching[i] != id {
          assert touching[i] in touching;
        }
      }
    }
  }

  /** A bead of the group that lists the file twice is named twice. */
  lemma {:induction false} TwiceTouches<Id(!new)>(beads: BeadsById<Id>, group: seq<Id>, f: Text, x: Id)
    requires x in group && x in beads
    ensures |Touching(beads, group, f)| >= multiset(beads[x].files)[f]
  {
    var front, id := group[..|group| - 1], group[|group| - 1];
    assert group == front + [id];
    if id == x {
      MentionsMember(id, beads[id].files, f);
    } else {
      TwiceTouches(beads, front, f, x);
    }
  }

  lemma {:induction false} FlattenEmpty<T>(parts: seq<seq<T>>)
    ensures Flatten(parts) == [] <==> forall i :: 0 <= i < |parts| ==> parts[i] == []
  {
    if parts != [] {
      FlattenEmpty(parts[..|parts| - 1]);
    }
  }

  /** Beads of one wave never share a file. */
  ghost predicate WavesShareNoFile<Id(!new)>(beads: seq<SimulatedBead<Id>>, groups: seq<seq<Id>>) {
    forall i, x, y, f :: 0 <= i < |groups| ==> !Share(beads, groups[i], x, y, f)
  }

  ghost predicate FilesExist<Id(!new)>(beads: seq<SimulatedBead<Id>>, repoFiles: set<Text>) {
    forall i, f :: 0 <= i < |beads| && f in beads[i].files ==> f in repoFiles
  }

  lemma MapListsFile<Id(!new)>(beads: seq<SimulatedBead<Id>>, x: Id, f: Text)
    requires Distinct(IdsOf(beads))
    ensures ListsFile(beads, x, f) <==>
              x in ParallelGroups.BeadMap(beads) && f in ParallelGroups.BeadMap(beads)[x].files
  {
    ParallelGroups.BeadMapKeys(beads, x);
    forall i | 0 <= i < |beads| ensures beads[i].id in IdsOf(beads) {
      assert IdsOf(beads)[i] == beads[i].id;
    }
    if x in ParallelGroups.BeadMap(beads) {
      var k :| 0 <= k < |beads| && beads[k] == ParallelGroups.BeadMap(beads)[x];
      forall i | 0 <= i < |beads| && beads[i].id == x ensures i == k {
        assert IdsOf(beads)[i] == IdsOf(beads)[k];
      }
    }
  }

  ghost predicate Share<Id(!new)>(beads: seq<SimulatedBead<Id>>, group: seq<Id>, x: Id, y: Id, f: Text) {
    x in group && y in group && x != y && ListsFile(beads, x, f) && ListsFile(beads, y, f)
  }

  /** A file that two beads of a group share is reported. */
  lemma SharedFileIsReported<Id(!new)>(beads: seq<SimulatedBead<Id>>, group: seq<Id>, conflicts: seq<FileConflict<Id>>,
      x: Id, y: Id, f: Text)
    requires Distinct(IdsOf(beads)) && GroupConflicts(ParallelGroups.BeadMap(beads), group, conflicts)
    requires Share(beads, group, x, y, f)
    ensures Reported(conflicts, f)
  {
    MapListsFile(beads, x, f);
    MapListsFile(beads, y, f);
    TwoTouch(ParallelGroups.BeadMap(beads), group, f, x, y);
    DistinctFits([x, y], Elements(group));
    ElementsSize(group);
  }

  /** Bead `x` lists the file more than once. */
  ghost predicate ListsTwice<Id(!new)>(beads: seq<SimulatedBead<Id>>, x: Id, f: Text) {
    exists i :: 0 <= i < |beads| && beads[i].id == x && multiset(beads[i].files)[f] > 1
  }

  lemma MapListsTwice<Id(!new)>(beads: seq<SimulatedBead<Id>>, x: Id, f: Text)
    requires Distinct(IdsOf(beads))
    ensures ListsTwice(beads, x, f) <==>
              x in ParallelGroups.BeadMap(beads) && multiset(ParallelGroups.BeadMap(beads)[x].files)[f] > 1
  {
    ParallelGroups.BeadMapKeys(beads, x);
    forall i | 0 <= i < |beads| ensures beads[i].id in IdsOf(beads) {
      assert IdsOf(beads)[i] == beads[i].id;
    }
    if x in ParallelGroups.BeadMap(beads) {
      var k :| 0 <= k < |beads| && beads[k] == ParallelGroups.BeadMap(beads)[x];
      forall i | 0 <= i < |beads| && beads[i].id == x ensures i == k {
        assert IdsOf(beads)[i] == IdsOf(beads)[k];
      }
    }
  }

  /** A reported file is shared by two beads of the group or listed twice by one of them. */
  lemma ReportedFileIsShared<Id(!new)>(beads: seq<SimulatedBead<Id>>, group: seq<Id>, conflicts: seq<FileConflict<Id>>,
      f: Text)
    returns (x: Id, y: Id)
    requires Distinct(IdsOf(beads)) && GroupConflicts(ParallelGroups.BeadMap(beads), group, conflicts)
    requires Distinct(group) && Reported(conflicts, f)
    ensures |group| >= 2 && (Share(beads, group, x, y, f) || (x in group && ListsTwice(beads, x, f)))
  {
    var m := ParallelGroups.BeadMap(beads);
    var i :| 0 <= i < |conflicts| && conflicts[i].file == f;
    var touching := Touching(m, group, f);
    if z :| z in group && ListsTwice(beads, z, f) {
      x, y := z, z;
    } else {
      forall z | z in group && z in m ensures multiset(m[z].files)[f] <= 1 {
        MapListsTwice(beads, z, f);
      }
      TouchingDistinct(m, group, f);
      x, y := touching[0], touching[1];
      TouchingMember(m, group, f, x);
      TouchingMember(m, group, f, y);
      MapListsFile(beads, x, f);
      MapListsFile(beads, y, f);
    }
  }

  /** In a group of at least two, a bead that lists a file twice makes it be reported, whoever
      else lists it. */
  lemma DoubleListingIsReported<Id(!new)>(beads: seq<SimulatedBead<Id>>, group: seq<Id>,
      conflicts: seq<FileConflict<Id>>, x: Id, f: Text)
    requires Distinct(IdsOf(beads)) && GroupConflicts(ParallelGroups.BeadMap(beads), group, conflicts)
    requires |group| >= 2 && x in group && ListsTwice(beads, x, f)
    ensures Reported(conflicts, f)
  {
    MapListsTwice(beads, x, f);
    TwiceTouches(ParallelGroups.BeadMap(beads), group, f, x);
  }

  /** A valid simulation: beads that share a file run in different waves, every
      wave's dependencies finish in earlier waves, and every file exists. */
  lemma ValidPlanIsSafe<Id(!new)>(beads: seq<SimulatedBead<Id>>, repoFiles: set<Text>, r: SimulationResult<Id>,
      parts: seq<seq<FileConflict<Id>>>)
    requires Reports(beads, repoFiles, r, parts) && r.valid
    ensures ParallelGroups.CanRun(beads)
    ensures WavesShareNoFile(beads, r.parallelGroups) && FilesExist(beads, repoFiles)
    ensures ParallelGroups.RespectsDeps(DepGraph(beads), IdSet(beads), r.parallelGroups)
  {
    ParallelGroups.GroupsRespectDeps(DepGraph(beads), IdSet(beads), r.parallelGroups);
    FlattenEmpty(parts);
    forall i, x, y, f | 0 <= i < |r.parallelGroups| ensures !Share(beads, r.parallelGroups[i], x, y, f) {
      assert parts[i] == [] && !Reported(parts[i], f);
      if Share(beads, r.parallelGroups[i], x, y, f) {
        SharedFileIsReported(beads, r.parallelGroups[i], parts[i], x, y, f);
      }
    }
    forall i, f | 0 <= i < |beads| && f in beads[i].files ensures f in repoFiles {
      assert MissingFileRef(beads[i].id, f) !in r.missingFiles;
    }
  }

  /** In a wave of at least two beads, no bead lists a file twice. */
  ghost predicate NoneListsTwice<Id(!new)>(beads: seq<SimulatedBead<Id>>, groups: seq<seq<Id>>) {
    forall i, x, f {:trigger x in groups[i], ListsTwice(beads, x, f)} ::
      0 <= i < |groups| && |groups[i]| >= 2 && x in groups[i] ==> !ListsTwice(beads, x, f)
  }

  /** A bead lists no file twice exactly when its list has no repetitions. */
  lemma ListsTwiceIff<Id(!new)>(beads: seq<SimulatedBead<Id>>, i: nat)
    requires Distinct(IdsOf(beads)) && i < |beads|
    ensures Distinct(beads[i].files) <==> forall f :: !ListsTwice(beads, beads[i].id, f)
  {
    var files := beads[i].files;
    forall k | 0 <= k < |beads| && beads[k].id == beads[i].id ensures k == i {
      assert IdsOf(beads)[i] == IdsOf(beads)[k];
    }
    if Distinct(files) {
      DistinctCounts(files);
    }
    forall a, b | 0 <= a < b < |files| && files[a] == files[b] ensures ListsTwice(beads, beads[i].id, files[a]) {
      assert files == files[..b] + files[b..];
      assert files[..b][a] == files[a] && files[b..][0] == files[b];
    }
  }

  lemma SoundGroupsReportNothing<Id(!new)>(beads: seq<SimulatedBead<Id>>, repoFiles: set<Text>, r: SimulationResult<Id>,
      parts: seq<seq<FileConflict<Id>>>)
    requires Reports(beads, repoFiles, r, parts) && ParallelGroups.CanRun(beads)
    requires WavesShareNoFile(beads, r.parallelGroups) && NoneListsTwice(beads, r.parallelGroups)
    ensures r.fileConflicts == []
  {
    FlattenEmpty(parts);
    forall i | 0 <= i < |parts| ensures parts[i] == [] {
      if parts[i] != [] {
        var f, group := parts[i][0].file, r.parallelGroups[i];
        assert Reported(parts[i], f) && Distinct(group);
        var _, _ := ReportedFileIsShared(beads, group, parts[i], f);
      }
    }
  }

  lemma ValidPlanListsOnce<Id(!new)>(beads: seq<SimulatedBead<Id>>, repoFiles: set<Text>, r: SimulationResult<Id>,
      parts: seq<seq<FileConflict<Id>>>)
    requires Reports(beads, repoFiles, r, parts) && r.valid
    ensures NoneListsTwice(beads, r.parallelGroups)
  {
    FlattenEmpty(parts);
    forall i, x, f | 0 <= i < |r.parallelGroups| && |r.parallelGroups[i]| >= 2
        && x in r.parallelGroups[i] ensures !ListsTwice(beads, x, f) {
      assert parts[i] == [] && !Reported(parts[i], f);
      if ListsTwice(beads, x, f) {
        DoubleListingIsReported(beads, r.parallelGroups[i], parts[i], x, f);
      }
    }
  }

  /** The verdict, exactly: the plan can run, no wave shares a file, every file exists, and no
      bead that has company in its wave lists a file twice. */
  lemma VerdictIsExact<Id(!new)>(beads: seq<SimulatedBead<Id>>, repoFiles: set<Text>, r: SimulationResult<Id>,
      parts: seq<seq<FileConflict<Id>>>)
    requires Reports(beads, repoFiles, r, parts)
    ensures r.valid <==> && ParallelGroups.CanRun(beads) && WavesShareNoFile(beads, r.parallelGroups)
                         && FilesExist(beads, repoFiles)
                         && NoneListsTwice(beads, r.parallelGroups)
  {
    if r.valid {
      ValidPlanIsSafe(beads, repoFiles, r, parts);
      ValidPlanListsOnce(beads, repoFiles, r, parts);
    } else if ParallelGroups.CanRun(beads) {
      if r.missingFiles != [] {
        var m := r.missingFiles[0];
        assert MissingFileRef(m.beadId, m.file) in r.missingFiles;
        assert !FilesExist(beads, repoFiles);
      } else if WavesShareNoFile(beads, r.parallelGroups) && NoneListsTwice(beads, r.parallelGroups) {
        SoundGroupsReportNothing(beads, repoFiles, r, parts);
      }
    }
  }

  lemma NoDepsNoEdges<Id(!new)>(a: SimulatedBead<Id>, b: SimulatedBead<Id>, p: seq<Id>)
    requires a.deps == [] && b.deps == []
    ensures Walk(DepGraph([a, b]), p) ==> |p| <= 1
  {
    if Walk(DepGraph([a, b]), p) && |p| > 1 {
      assert Edge(DepGraph([a, b]), p[0], p[1]);
      DepGraphEdge([a, b], p[0], p[1]);
    }
  }

  lemma RootsAreInTheFirstWave<Id(!new)>(a: SimulatedBead<Id>, b: SimulatedBead<Id>, groups: seq<seq<Id>>, x: Id,
      i: nat)
    requires a.deps == [] && b.deps == []
    requires ParallelGroups.GroupedByLevel(DepGraph([a, b]), IdSet([a, b]), groups) && i < |groups| && x in groups[i]
    ensures i == 0
  {
    var p :| Walk(DepGraph([a, b]), p) && p[0] == x && |p| == i + 1;
    NoDepsNoEdges(a, b, p);
  }

  lemma TwoMembers<T>(s: seq<T>, x: T, y: T)
    requires x in s && y in s && x != y
    ensures |s| >= 2
  {
    var i, j :| 0 <= i < |s| && 0 <= j < |s| && s[i] == x && s[j] == y;
  }

  /** Two beads that depend on nothing are in one wave. */
  lemma TogetherInOneWave<Id(!new)>(a: SimulatedBead<Id>, b: SimulatedBead<Id>, groups: seq<seq<Id>>)
    requires a.id != b.id && a.deps == [] && b.deps == []
    requires ParallelGroups.Partition(IdSet([a, b]), groups)
             && ParallelGroups.GroupedByLevel(DepGraph([a, b]), IdSet([a, b]), groups)
    ensures |groups| > 0 && a.id in groups[0] && b.id in groups[0] && |groups[0]| >= 2
  {
    assert IdsOf([a, b])[0] == a.id && IdsOf([a, b])[1] == b.id;
    assert a.id in IdSet([a, b]) && b.id in IdSet([a, b]);
    var i :| 0 <= i < |groups| && a.id in groups[i];
    var j :| 0 <= j < |groups| && b.id in groups[j];
    RootsAreInTheFirstWave(a, b, groups, a.id, i);
    RootsAreInTheFirstWave(a, b, groups, b.id, j);
    TwoMembers(groups[0], a.id, b.id);
  }

  /** A plan of two beads without dependencies, one of which lists any file twice, is never
      valid, even when no other bead lists that file and all files exist. */
  lemma DoubleListingConflictsWithItself<Id(!new)>(a: SimulatedBead<Id>, b: SimulatedBead<Id>, repoFiles: set<Text>,
      r: SimulationResult<Id>, parts: seq<seq<FileConflict<Id>>>)
    requires a.id != b.id && a.deps == [] && b.deps == [] && !Distinct(a.files)
    requires Reports([a, b], repoFiles, r, parts)
    ensures !r.valid
  {
    if ParallelGroups.CanRun([a, b]) {
      TogetherInOneWave(a, b, r.parallelGroups);
      ListsTwiceIff([a, b], 0);
      var f :| ListsTwice([a, b], a.id, f);
      assert a.id in r.parallelGroups[0];
      assert !NoneListsTwice([a, b], r.parallelGroups);
      VerdictIsExact([a, b], repoFiles, r, parts);
    }
  }
}
