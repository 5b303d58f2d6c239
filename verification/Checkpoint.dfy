/** Checkpoints of the flywheel state: written to a temporary file and renamed,
    read back with validation, in a process that may die at any point. */
module Checkpoint {
  import opened Options

  // ---- Envelopes ---------------------------------------------------------------

  datatype Key =
    | SchemaVersion | WrittenAt | FlywheelVersion | OrchestratorVersion | GitHead | State | StateHash | Phase
    | OtherKey(name: string)

  /** Numbers are the texts they print as. */
  datatype Json =
    | Null
    | Bool(b: bool)
    | Num(token: string)
    | Str(s: string)
    | Arr(items: seq<Json>)
    | Obj(fields: map<Key, Json>)

  /** What the program takes from its surroundings: its own version, JSON printing and
      parsing, the digest of a state, and the milliseconds that a date stands for. */
  datatype Library = Library(
    version: string,
    text: Json -> string,
    parse: string -> Option<Json>,
    hash: Json -> string,
    dateOf: string -> Option<int>)

  /** What was printed for `v` is parsed as `v`. */
  predicate ReadsBack(lib: Library, v: Json) {
    lib.parse(lib.text(v)) == Some(v)
  }

  const STALE_THRESHOLD_MS := 24 * 60 * 60 * 1000

  predicate IsObject(v: Json) {
    v.Arr? || v.Obj?
  }

  /** `v[key]`, absent when undefined. */
  function Field(v: Json, key: Key): Option<Json> {
    if v.Obj? && key in v.fields then Some(v.fields[key]) else None
  }

  predicate IsString(v: Option<Json>) {
    v.Some? && v.value.Str?
  }

  /** The current field name for the version, or else the one used before. */
  function VersionOf(e: Json): Option<Json> {
    var v := Field(e, FlywheelVersion);
    if v.None? || v.value.Null? then Field(e, OrchestratorVersion) else v
  }

  datatype Invalid =
    | NotAnObject | UnknownSchema | BadWrittenAt | WrittenAtNotADate | NoVersion | NoState
    | NoHash | HashMismatch | NoPhase

  /** The first rule that `e` breaks. */
  function ValidateCheckpoint(lib: Library, e: Json): Option<Invalid> {
    if !IsObject(e) then Some(NotAnObject)
    else if Field(e, SchemaVersion) != Some(Num("1")) then Some(UnknownSchema)
    else if !IsString(Field(e, WrittenAt)) then Some(BadWrittenAt)
    else if lib.dateOf(Field(e, WrittenAt).value.s).None? then Some(WrittenAtNotADate)
    else if !IsString(VersionOf(e)) then Some(NoVersion)
    else if Field(e, State).None? || !IsObject(Field(e, State).value) then Some(NoState)
    else if !IsString(Field(e, StateHash)) then Some(NoHash)
    else if lib.hash(Field(e, State).value) != Field(e, StateHash).value.s then Some(HashMismatch)
    else if !IsString(Field(Field(e, State).value, Phase)) then Some(NoPhase)
    else None
  }

  predicate Valid(lib: Library, e: Json) {
    ValidateCheckpoint(lib, e).None?
  }

  function Envelope(lib: Library, state: Json, now: string, head: Option<string>): Json {
    var fields := map[SchemaVersion := Num("1"), WrittenAt := Str(now), FlywheelVersion := Str(lib.version),
                      State := state, StateHash := Str(lib.hash(state))];
    Obj(if head.Some? then fields[GitHead := Str(head.value)] else fields)
  }

  /** Every state that has a phase, written at a real time, validates when read back,
      and a state without one never does. */
  lemma OwnEnvelopeValidates(lib: Library, state: Json, now: string, head: Option<string>)
    requires lib.dateOf(now).Some?
    ensures Valid(lib, Envelope(lib, state, now, head)) <==> IsString(Field(state, Phase))
    ensures !IsObject(state) ==> ValidateCheckpoint(lib, Envelope(lib, state, now, head)) == Some(NoState)
    ensures IsObject(state) && !IsString(Field(state, Phase)) ==>
            ValidateCheckpoint(lib, Envelope(lib, state, now, head)) == Some(NoPhase)
    ensures var e := Envelope(lib, state, now, head);
            && Field(e, State) == Some(state)
            && Field(e, SchemaVersion) == Some(Num("1")) && Field(e, WrittenAt) == Some(Str(now))
            && Field(e, FlywheelVersion) == Some(Str(lib.version)) && Field(e, StateHash) == Some(Str(lib.hash(state)))
            && Field(e, GitHead) == (if head.Some? then Some(Str(head.value)) else None)
            && forall name :: Field(e, OtherKey(name)).None?
  {
  }

  /** The rules, one by one: which complaint each of them makes when the ones before it are kept. */
  lemma RulesOfEnvelopes(lib: Library, e: Json)
    ensures var r := ValidateCheckpoint(lib, e);
            && (r == Some(NotAnObject) <==> !e.Obj? && !e.Arr?)
            && (e.Arr? ==> r == Some(UnknownSchema))
            && (e.Obj? ==>
                  (r == Some(UnknownSchema) <==> !(SchemaVersion in e.fields && e.fields[SchemaVersion] == Num("1"))))
            && (r.None? ==>
                  && e.Obj? && SchemaVersion in e.fields && e.fields[SchemaVersion] == Num("1")
                  && WrittenAt in e.fields && e.fields[WrittenAt].Str? && lib.dateOf(e.fields[WrittenAt].s).Some?
                  && ((FlywheelVersion in e.fields && e.fields[FlywheelVersion].Str?)
                      || (OrchestratorVersion in e.fields && e.fields[OrchestratorVersion].Str?))
                  && State in e.fields && e.fields[State].Obj? && Phase in e.fields[State].fields
                      && e.fields[State].fields[Phase].Str?
                  && StateHash in e.fields && e.fields[StateHash] == Str(lib.hash(e.fields[State])))
  {
  }

  /** The other way round, with the current name of the version or the older one. */
  lemma KeptRulesMakeValid(lib: Library, e: Json)
    requires e.Obj? && SchemaVersion in e.fields && e.fields[SchemaVersion] == Num("1")
    requires WrittenAt in e.fields && e.fields[WrittenAt].Str? && lib.dateOf(e.fields[WrittenAt].s).Some?
    requires if FlywheelVersion in e.fields && !e.fields[FlywheelVersion].Null? then e.fields[FlywheelVersion].Str?
             else OrchestratorVersion in e.fields && e.fields[OrchestratorVersion].Str?
    requires State in e.fields && e.fields[State].Obj? && Phase in e.fields[State].fields
             && e.fields[State].fields[Phase].Str?
    requires StateHash in e.fields && e.fields[StateHash] == Str(lib.hash(e.fields[State]))
    ensures Valid(lib, e)
    ensures VersionOf(e) ==
            if FlywheelVersion in e.fields && !e.fields[FlywheelVersion].Null? then Some(e.fields[FlywheelVersion])
            else Some(e.fields[OrchestratorVersion])
  {
  }

  /** Each broken rule has its own complaint: an envelope of the program's own with one field
      taken out. */
  lemma MissingFieldsAreNamed(lib: Library, state: Json, now: string, head: Option<string>)
    requires lib.dateOf(now).Some? && IsString(Field(state, Phase))
    ensures var fields := Envelope(lib, state, now, head).fields;
            && ValidateCheckpoint(lib, Obj(fields - {SchemaVersion})) == Some(UnknownSchema)
            && ValidateCheckpoint(lib, Obj(fields - {WrittenAt})) == Some(BadWrittenAt)
            && ValidateCheckpoint(lib, Obj(fields - {FlywheelVersion})) == Some(NoVersion)
  {
  }

  lemma MissingContentsAreNamed(lib: Library, state: Json, now: string, head: Option<string>)
    requires lib.dateOf(now).Some? && IsString(Field(state, Phase))
    ensures var fields := Envelope(lib, state, now, head).fields;
            && ValidateCheckpoint(lib, Obj(fields - {State})) == Some(NoState)
            && ValidateCheckpoint(lib, Obj(fields - {StateHash})) == Some(NoHash)
            && Valid(lib, Obj(fields - {GitHead}))
  {
  }

  /** The same with one field that says something wrong. */
  lemma WrongFieldsAreNamed(lib: Library, state: Json, now: string, head: Option<string>, text: string)
    requires lib.dateOf(now).Some? && IsString(Field(state, Phase))
    ensures var fields := Envelope(lib, state, now, head).fields;
            && (lib.dateOf(text).None? ==>
                  ValidateCheckpoint(lib, Obj(fields[WrittenAt := Str(text)])) == Some(WrittenAtNotADate))
            && (text != lib.hash(state) ==>
                  ValidateCheckpoint(lib, Obj(fields[StateHash := Str(text)])) == Some(HashMismatch))
  {
  }

  /** With another state put in its place, a valid checkpoint stays valid exactly when the
      new state has a phase and happens to have the same digest. */
  lemma ChangedStateIsRejected(lib: Library, e: Json, other: Json)
    requires Valid(lib, e) && e.Obj?
    ensures Valid(lib, Obj(e.fields[State := other])) <==>
            IsString(Field(other, Phase)) && lib.hash(other) == lib.hash(Field(e, State).value)
  {
    var changed := Obj(e.fields[State := other]);
    assert forall key {:trigger Field(changed, key)} :: key != State ==> Field(changed, key) == Field(e, key);
    assert Field(changed, State) == Some(other);
  }

  datatype Warning = OtherVersion(version: string) | Stale(hours: nat)

  /** A checkpoint from another version, or more than a day old, is returned with a warning. */
  function Warnings(lib: Library, e: Json, now: int): (ws: seq<Warning>)
    requires Valid(lib, e)
    ensures |ws| <= 2
    ensures (exists v :: OtherVersion(v) in ws) <==> VersionOf(e) != Some(Str(lib.version))
    ensures (exists h :: Stale(h) in ws) <==> now - lib.dateOf(Field(e, WrittenAt).value.s).value > STALE_THRESHOLD_MS
    ensures forall h: nat :: Stale(h) in ws ==>
              var age := now - lib.dateOf(Field(e, WrittenAt).value.s).value;
              h >= 24 && h * 3600000 <= age < (h + 1) * 3600000
    ensures forall v :: OtherVersion(v) in ws ==> VersionOf(e) == Some(Str(v))
  {
    var age := now - lib.dateOf(Field(e, WrittenAt).value.s).value;
    var ageing := if age > STALE_THRESHOLD_MS then [Stale(age / (60 * 60 * 1000))] else [];
    var version := VersionOf(e).value.s;
    var other := if version != lib.version then [OtherVersion(version)] else [];
    assert age > STALE_THRESHOLD_MS ==> (other + ageing)[|other|] == Stale(age / (60 * 60 * 1000));
    assert version != lib.version ==> (other + ageing)[0] == OtherVersion(version);
    other + ageing
  }

  // ---- The files ----------------------------------------------------------------

  datatype Disk = Disk(main: Option<string>, tmp: Option<string>, corrupt: Option<string>)

  /** How far one write gets. In the last two cases the process dies. */
  datatype WriteFate =
    | NoDirectory
    | TmpFails(written: Option<nat>)
    | RenameRefused
    | Renames
    | DiesInTmp(n: nat)
    | DiesBeforeRename

  predicate Dies(fate: WriteFate) {
    fate.DiesInTmp? || fate.DiesBeforeRename?
  }

  datatype Moving = Unmanaged | MovedAway | MoveRefused(deleted: bool)

  datatype ReadFate = Unreadable | Readable(moving: Moving, tmpDeleted: bool)

  function Prefix(text: string, n: nat): string {
    if n <= |text| then text[..n] else text
  }

  /** The disk after a write, for a text that is to become the checkpoint. */
  function AfterWrite(d: Disk, text: string, fate: WriteFate): Disk {
    match fate
    case NoDirectory => d
    case TmpFails(written) => if written.Some? then d.(tmp := Some(Prefix(text, written.value))) else d
    case RenameRefused => d.(tmp := Some(text))
    case Renames => d.(main := Some(text), tmp := None)
    case DiesInTmp(n) => d.(tmp := Some(Prefix(text, n)))
    case DiesBeforeRename => d.(tmp := Some(text))
  }

  function AfterMove(d: Disk, moving: Moving): Disk
    requires d.main.Some?
  {
    match moving
    case Unmanaged => d
    case MovedAway => d.(main := None, corrupt := d.main)
    case MoveRefused(deleted) => if deleted then d.(main := None) else d
  }

  /** The envelope in the checkpoint file, if there is a valid one. */
  function Stored(lib: Library, d: Disk): Option<Json> {
    if d.main.None? then None
    else
      var parsed := lib.parse(d.main.value);
      if parsed.Some? && Valid(lib, parsed.value) then parsed else None
  }

  /** The disk after a read: a missing checkpoint removes the temporary file, and a
      broken one is set aside. */
  function AfterRead(lib: Library, d: Disk, fate: ReadFate): Disk {
    if d.main.None? then
      if fate.Readable? && fate.tmpDeleted then d.(tmp := None) else d
    else if fate.Unreadable? || Stored(lib, d).Some? then d
    else AfterMove(d, fate.moving)
  }

  function ReadResult(lib: Library, d: Disk, fate: ReadFate): Option<Json> {
    if fate.Unreadable? then None else Stored(lib, d)
  }

  function AfterClear(d: Disk, mainDeleted: bool, tmpDeleted: bool): Disk {
    d.(main := if mainDeleted then None else d.main, tmp := if tmpDeleted then None else d.tmp)
  }

  /** A write changes the checkpoint only by its rename, which takes the whole text; otherwise
      it leaves the temporary file alone or with a prefix of the text. */
  lemma WriteTouches(d: Disk, text: string, fate: WriteFate)
    ensures var t := AfterWrite(d, text, fate);
            && t.corrupt == d.corrupt && t.main == (if fate.Renames? then Some(text) else d.main)
            && (fate.Renames? ==> t.tmp == None)
            && (!fate.Renames? && t.tmp != d.tmp ==> t.tmp.Some? && t.tmp.value <= text)
            && (fate.RenameRefused? || fate.DiesBeforeRename? ==> t.tmp == Some(text))
  {
  }

  /** A read that finds no checkpoint removes a temporary file that was left behind, if it can; one that
      finds one never touches that file; and a clear deletes what it can of both. */
  lemma OrphansGo(lib: Library, d: Disk, fate: ReadFate, mainDeleted: bool, tmpDeleted: bool)
    ensures d.main.None? && fate.Readable? && fate.tmpDeleted ==> AfterRead(lib, d, fate) == Disk(None, None, d.corrupt)
    ensures d.main.Some? ==> AfterRead(lib, d, fate).tmp == d.tmp
    ensures fate.Unreadable? || (d.main.None? && !fate.tmpDeleted) ==> AfterRead(lib, d, fate) == d
    ensures var c := AfterClear(d, mainDeleted, tmpDeleted);
            && c.corrupt == d.corrupt && (if mainDeleted then c.main == None else c.main == d.main)
            && (if tmpDeleted then c.tmp == None else c.tmp == d.tmp)
  {
  }

  /** What the caller of a write learns: nothing if the process died. */
  datatype WriteResult = Returned(ok: bool) | Died

  class CheckpointDir {
    const lib: Library
    var main: Option<string>
    var tmp: Option<string>
    var corrupt: Option<string>

    ghost function Contents(): Disk
      reads this
    {
      Disk(main, tmp, corrupt)
    }

    method WriteCheckpointInner(state: Json, now: string, head: Option<string>, fate: WriteFate)
        returns (result: WriteResult)
      modifies this
      ensures Contents() == AfterWrite(old(Contents()), lib.text(Envelope(lib, state, now, head)), fate)
      ensures result == if Dies(fate) then Died else Returned(fate.Renames?)
    {
      if fate.NoDirectory? { return Returned(false); }
      var text := lib.text(Envelope(lib, state, now, head));
      if fate.TmpFails? {
        if fate.written.Some? { tmp := Some(Prefix(text, fate.written.value)); }
        return Returned(false);
      }
      if fate.DiesInTmp? {
        tmp := Some(Prefix(text, fate.n));
        return Died;
      }
      tmp := Some(text);
      if fate.DiesBeforeRename? { return Died; }
      if fate.RenameRefused? { return Returned(false); }
      main, tmp := tmp, None;
      return Returned(true);
    }

    method MoveToCorrupt(moving: Moving)
      requires main.Some?
      modifies this
      ensures Contents() == AfterMove(old(Contents()), moving)
    {
      if moving.Unmanaged? { return; }
      if moving.MovedAway? {
        main, corrupt := None, main;
        return;
      }
      if moving.deleted { main := None; }
    }

    method ReadCheckpoint(now: int, fate: ReadFate) returns (result: Option<(Json, seq<Warning>)>)
      modifies this
      ensures Contents() == AfterRead(lib, old(Contents()), fate)
      ensures result == match ReadResult(lib, old(Contents()), fate)
                        case None => None
                        case Some(e) => Some((e, Warnings(lib, e, now)))
    {
      if main.None? {
        if fate.Readable? && fate.tmpDeleted { tmp := None; }
        return None;
      }
      if fate.Unreadable? { return None; }
      var parsed := lib.parse(main.value);
      if parsed.None? {
        MoveToCorrupt(fate.moving);
        return None;
      }
      if ValidateCheckpoint(lib, parsed.value).Some? {
        MoveToCorrupt(fate.moving);
        return None;
      }
      return Some((parsed.value, Warnings(lib, parsed.value, now)));
    }

    method ClearCheckpoint(mainDeleted: bool, tmpDeleted: bool)
      modifies this
      ensures Contents() == AfterClear(old(Contents()), mainDeleted, tmpDeleted)
    {
      if mainDeleted { main := None; }
      if tmpDeleted { tmp := None; }
    }
  }

  // ---- Runs ---------------------------------------------------------------------

  /** The objects that hold states, which the program goes on changing, by number. */
  type Objects = map<nat, Json>

  /** What happens next in one directory. Writes are queued when they are asked for
      and run one by one, with what the object holds by then; reads and clears happen at once. */
  datatype Event =
    | Change(ref: nat, contents: Json)
    | Ask(ref: nat)
    | RunNext(now: string, head: Option<string>, fate: WriteFate)
    | Read(reading: ReadFate)
    | Clear(mainDeleted: bool, tmpDeleted: bool)
    | Crash

  /** What happened, as an observer outside the program would note it. */
  datatype Note =
    | Asked(ref: nat)
    | Wrote(ref: nat, envelope: Json)
    | FailedWrite(ref: nat)
    | SetAside
    | ReadBack(readable: bool, result: Option<Json>)
    | Cleared
    | Restarted

  datatype System = System(disk: Disk, objects: Objects, queue: seq<nat>, notes: seq<Note>)

  function ContentsOf(objects: Objects, ref: nat): Json {
    if ref in objects then objects[ref] else Null
  }

  function WriteNote(ref: nat, envelope: Json, fate: WriteFate): Note {
    if Dies(fate) then Restarted else if fate.Renames? then Wrote(ref, envelope) else FailedWrite(ref)
  }

  function Next(lib: Library, s: System, event: Event): System {
    match event
    case Change(ref, contents) => s.(objects := s.objects[ref := contents])
    case Ask(ref) => s.(queue := s.queue + [ref], notes := s.notes + [Asked(ref)])
    case RunNext(now, head, fate) =>
      if s.queue == [] then s
      else
        var ref := s.queue[0];
        var envelope := Envelope(lib, ContentsOf(s.objects, ref), now, head);
        System(AfterWrite(s.disk, lib.text(envelope), fate),
               s.objects,
               if Dies(fate) then [] else s.queue[1..],
               s.notes + [WriteNote(ref, envelope, fate)])
    case Read(fate) =>
      var disk := AfterRead(lib, s.disk, fate);
      var seen := s.notes + [ReadBack(fate.Readable?, ReadResult(lib, s.disk, fate))];
      System(disk, s.objects, s.queue, if disk.main != s.disk.main then seen + [SetAside] else seen)
    case Clear(mainDeleted, tmpDeleted) =>
      s.(disk := AfterClear(s.disk, mainDeleted, tmpDeleted), notes := if mainDeleted then s.notes + [Cleared]
          else s.notes)
    case Crash => s.(queue := [], notes := s.notes + [Restarted])
  }

  function Run(lib: Library, disk: Disk, events: seq<Event>): System {
    if events == [] then System(disk, map[], [], [])
    else Next(lib, Run(lib, disk, events[..|events| - 1]), events[|events| - 1])
  }

  /** The text of the last write that reached its rename since the checkpoint was last
      cleared or set aside, judged from the notes alone; `start` if there is neither. */
  function Expected(lib: Library, start: Option<string>, notes: seq<Note>): Option<string> {
    if notes == [] then start
    else
      match notes[|notes| - 1]
      case Wrote(_, envelope) => Some(lib.text(envelope))
      case SetAside => None
      case Cleared => None
      case _ => Expected(lib, start, notes[..|notes| - 1])
  }

  /** The objects whose states were asked to be written, or tried, since the process last
      started. */
  function AskedFor(notes: seq<Note>): seq<nat> {
    if notes == [] || notes[|notes| - 1].Restarted? then []
    else
      AskedFor(notes[..|notes| - 1]) + match notes[|notes| - 1] case Asked(ref) => [ref] case _ => []
  }

  function Tried(notes: seq<Note>): seq<nat> {
    if notes == [] || notes[|notes| - 1].Restarted? then []
    else
      Tried(notes[..|notes| - 1]) +
      match notes[|notes| - 1] case Wrote(ref, _) => [ref] case FailedWrite(ref) => [ref] case _ => []
  }

  /** What a read must give when the checkpoint file holds `text`. */
  function Readback(lib: Library, text: Option<string>): Option<Json> {
    Stored(lib, Disk(text, None, None))
  }

  ghost predicate ReadIsRight(lib: Library, start: Option<string>, notes: seq<Note>, i: nat)
    requires i < |notes|
  {
    notes[i].ReadBack? ==>
      notes[i].result == if notes[i].readable then Readback(lib, Expected(lib, start, notes[..i])) else None
  }

  ghost predicate ReadsAreRight(lib: Library, start: Option<string>, notes: seq<Note>) {
    forall i {:trigger ReadIsRight(lib, start, notes, i)} :: 0 <= i < |notes| ==> ReadIsRight(lib, start, notes, i)
  }

  lemma NoteExtends(lib: Library, start: Option<string>, notes: seq<Note>, note: Note)
    requires ReadsAreRight(lib, start, notes)
    requires note.ReadBack? ==>
               note.result == if note.readable then Readback(lib, Expected(lib, start, notes)) else None
    ensures ReadsAreRight(lib, start, notes + [note])
    ensures (notes + [note])[..|notes|] == notes
  {
    var more := notes + [note];
    forall i | 0 <= i < |more| ensures ReadIsRight(lib, start, more, i) {
      assert more[..i] == notes[..i];
      if i < |notes| {
        assert ReadIsRight(lib, start, notes, i);
      } else {
        assert notes[..i] == notes;
      }
    }
  }

  ghost predicate Inv(lib: Library, start: Option<string>, s: System) {
    && s.disk.main == Expected(lib, start, s.notes)
    && ReadsAreRight(lib, start, s.notes)
    && AskedFor(s.notes) == Tried(s.notes) + s.queue
  }

  predicate Decisive(note: Note) {
    note.Wrote? || note.SetAside? || note.Cleared?
  }

  function AskOf(note: Note): seq<nat> {
    if note.Asked? then [note.ref] else []
  }

  function TryOf(note: Note): seq<nat> {
    if note.Wrote? || note.FailedWrite? then [note.ref] else []
  }

  lemma AddNote(lib: Library, start: Option<string>, notes: seq<Note>, note: Note)
    ensures Expected(lib, start, notes + [note]) ==
            if note.Wrote? then Some(lib.text(note.envelope)) else if Decisive(note) then None
                else Expected(lib, start, notes)
    ensures AskedFor(notes + [note]) == if note.Restarted? then [] else AskedFor(notes) + AskOf(note)
    ensures Tried(notes + [note]) == if note.Restarted? then [] else Tried(notes) + TryOf(note)
  {
    var more := notes + [note];
    assert more[..|more| - 1] == notes;
  }

  lemma NothingMore<T>(a: seq<T>)
    ensures a + [] == a
  {
  }

  lemma PopFront<T>(a: seq<T>, queue: seq<T>)
    requires queue != []
    ensures a + queue == (a + [queue[0]]) + queue[1..]
  {
  }

  lemma PushBack<T>(a: seq<T>, queue: seq<T>, x: T)
    ensures (a + queue) + [x] == a + (queue + [x])
  {
  }

  lemma WriteKeepsInv(lib: Library, start: Option<string>, s: System, now: string, head: Option<string>,
      fate: WriteFate)
    requires Inv(lib, start, s)
    ensures Inv(lib, start, Next(lib, s, RunNext(now, head, fate)))
  {
    if s.queue != [] {
      var ref := s.queue[0];
      var envelope := Envelope(lib, ContentsOf(s.objects, ref), now, head);
      var note := WriteNote(ref, envelope, fate);
      NoteExtends(lib, start, s.notes, note);
      AddNote(lib, start, s.notes, note);
      PopFront(Tried(s.notes), s.queue);
      NothingMore(AskedFor(s.notes));
      assert fate.Renames? || AfterWrite(s.disk, lib.text(envelope), fate).main == s.disk.main;
    }
  }

  lemma ReadKeepsInv(lib: Library, start: Option<string>, s: System, fate: ReadFate)
    requires Inv(lib, start, s)
    ensures Inv(lib, start, Next(lib, s, Read(fate)))
  {
    var note := ReadBack(fate.Readable?, ReadResult(lib, s.disk, fate));
    NoteExtends(lib, start, s.notes, note);
    QuietNote(lib, start, s.notes, note);
    NoteExtends(lib, start, s.notes + [note], SetAside);
    QuietNote(lib, start, s.notes + [note], SetAside);
  }

  lemma QuietNote(lib: Library, start: Option<string>, notes: seq<Note>, note: Note)
    requires note.ReadBack? || note.SetAside? || note.Cleared?
    ensures Expected(lib, start, notes + [note]) == if note.ReadBack? then Expected(lib, start, notes) else None
    ensures AskedFor(notes + [note]) == AskedFor(notes) && Tried(notes + [note]) == Tried(notes)
  {
    AddNote(lib, start, notes, note);
    NothingMore(AskedFor(notes));
    NothingMore(Tried(notes));
  }

  lemma OtherStepsKeepInv(lib: Library, start: Option<string>, s: System, event: Event)
    requires Inv(lib, start, s) && (event.Change? || event.Ask? || event.Clear? || event.Crash?)
    ensures Inv(lib, start, Next(lib, s, event))
  {
    match event
    case Change(_, _) =>
    case Ask(ref) =>
      NoteExtends(lib, start, s.notes, Asked(ref));
      AddNote(lib, start, s.notes, Asked(ref));
      NothingMore(Tried(s.notes));
      PushBack(Tried(s.notes), s.queue, ref);
    case Crash =>
      NoteExtends(lib, start, s.notes, Restarted);
      AddNote(lib, start, s.notes, Restarted);
    case Clear(_, _) =>
      NoteExtends(lib, start, s.notes, Cleared);
      QuietNote(lib, start, s.notes, Cleared);
  }

  lemma {:induction false} RunKeepsInv(lib: Library, disk: Disk, events: seq<Event>)
    ensures Inv(lib, disk.main, Run(lib, disk, events))
  {
    if events != [] {
      var s, event := Run(lib, disk, events[..|events| - 1]), events[|events| - 1];
      RunKeepsInv(lib, disk, events[..|events| - 1]);
      match event
      case RunNext(now, head, fate) => WriteKeepsInv(lib, disk.main, s, now, head, fate);
      case Read(fate) => ReadKeepsInv(lib, disk.main, s, fate);
      case _ => OtherStepsKeepInv(lib, disk.main, s, event);
    }
  }

  /** The newest note that decides what the checkpoint file holds. */
  ghost predicate LastWord(notes: seq<Note>, i: nat, k: nat) {
    && k < i <= |notes|
    && Decisive(notes[k])
    && forall j {:trigger notes[j]} :: k < j < i ==> !Decisive(notes[j])
  }

  lemma {:induction false} ExpectedIsLastWord(lib: Library, start: Option<string>, notes: seq<Note>, k: nat)
    requires LastWord(notes, |notes|, k)
    ensures Expected(lib, start, notes) == if notes[k].Wrote? then Some(lib.text(notes[k].envelope)) else None
    decreases |notes|
  {
    if k < |notes| - 1 {
      assert !Decisive(notes[|notes| - 1]);
      var shorter := notes[..|notes| - 1];
      assert forall j {:trigger shorter[j]} :: k < j < |notes| - 1 ==> shorter[j] == notes[j];
      ExpectedIsLastWord(lib, start, shorter, k);
    }
  }

  /** Over any run with crashes anywhere, a read gives nothing or the complete envelope
      of the last write that reached its rename since the last clear: exactly that
      envelope when the file can be read and the state written had a phase. Only that one
      envelope has to print as text that parses again. */
  lemma ReadsGiveLastWrite(lib: Library, disk: Disk, events: seq<Event>, i: nat, k: nat)
    requires var notes := Run(lib, disk, events).notes;
             && i < |notes| && notes[i].ReadBack? && LastWord(notes, i, k)
             && (notes[k].Wrote? ==> ReadsBack(lib, notes[k].envelope))
    ensures var notes := Run(lib, disk, events).notes;
            notes[i].result ==
            if notes[i].readable && notes[k].Wrote? && Valid(lib, notes[k].envelope) then Some(notes[k].envelope)
                else None
  {
    RunKeepsInv(lib, disk, events);
    var notes := Run(lib, disk, events).notes;
    assert ReadIsRight(lib, disk.main, notes, i);
    var before := notes[..i];
    assert forall j {:trigger before[j]} :: 0 <= j < i ==> before[j] == notes[j];
    ExpectedIsLastWord(lib, disk.main, before, k);
  }

  /** A change that the program makes to the state between the call and the write is written. */
  lemma LateChangeIsWritten(lib: Library, s: System, ref: nat, contents: Json, now: string, head: Option<string>)
    requires s.queue == []
    ensures var asked := Next(lib, s, Ask(ref));
            var t := Next(lib, Next(lib, asked, Change(ref, contents)), RunNext(now, head, Renames));
            && t.notes == (s.notes + [Asked(ref)]) + [Wrote(ref, Envelope(lib, contents, now, head))]
            && t.disk.main == Some(lib.text(Envelope(lib, contents, now, head)))
  {
  }

  // ---- Setting aside and clearing -----------------------------------------------------

  /** A read of a broken checkpoint never loses its bytes, unless they could not be moved
      and were deleted instead; once they are out of the way the next reads find nothing
      and change no checkpoint file, and what is valid is never moved. */
  lemma BrokenIsSetAside(lib: Library, d: Disk, fate: ReadFate, again: ReadFate)
    requires d.main.Some? && fate.Readable?
    ensures var after := AfterRead(lib, d, fate);
            && (Stored(lib, d).Some? <==> ReadResult(lib, d, fate).Some?)
            && (Stored(lib, d).Some? ==> after == d)
            && (Stored(lib, d).None? ==>
                  && (after.main == d.main || after.corrupt == d.main <==>
                      fate.moving != MoveRefused(true) || d.corrupt == d.main)
                  && (after.main.None? <==> fate.moving != Unmanaged && fate.moving != MoveRefused(false))
                  && ReadResult(lib, after, again).None?
                  && (after.main.None? ==> AfterRead(lib, after, again).(tmp := None) == after.(tmp := None)))
  {
  }

  predicate Renaming(event: Event) {
    event.RunNext? && event.fate.Renames?
  }

  /** No note from position `n` on is of a read that gave something. */
  predicate NothingRead(notes: seq<Note>, n: nat) {
    forall i {:trigger notes[i]} :: n <= i < |notes| && notes[i].ReadBack? ==> notes[i].result == None
  }

  lemma QuietStep(lib: Library, s: System, event: Event, n: nat)
    requires s.disk.main == None && !Renaming(event) && n <= |s.notes| && NothingRead(s.notes, n)
    ensures Next(lib, s, event).disk.main == None && n <= |Next(lib, s, event).notes|
            && NothingRead(Next(lib, s, event).notes, n)
  {
  }

  /** From a clear that deletes the file until the next write that reaches its rename,
      whatever else happens, every read gives nothing. */
  lemma {:induction false} ClearedReadsNothing(lib: Library, disk: Disk, cleared: seq<Event>, more: seq<Event>)
    requires cleared != [] && cleared[|cleared| - 1].Clear? && cleared[|cleared| - 1].mainDeleted
    requires forall j {:trigger more[j]} :: 0 <= j < |more| ==> !Renaming(more[j])
    ensures var n, after := |Run(lib, disk, cleared).notes|, Run(lib, disk, cleared + more);
            after.disk.main == None && n <= |after.notes| && NothingRead(after.notes, n)
    decreases |more|
  {
    if more == [] {
      assert cleared + more == cleared;
    } else {
      var most, last := more[..|more| - 1], more[|more| - 1];
      ClearedReadsNothing(lib, disk, cleared, most);
      assert cleared + more == (cleared + most) + [last];
      RunOneMore(lib, disk, cleared + most, last);
      QuietStep(lib, Run(lib, disk, cleared + most), last, |Run(lib, disk, cleared).notes|);
    }
  }

  /** Queued writes are tried in the order of the calls, each whatever became of the
      ones before it, and only a crash forgets one. */
  lemma WritesRunInCallOrder(lib: Library, disk: Disk, events: seq<Event>)
    ensures var s := Run(lib, disk, events);
            && AskedFor(s.notes) == Tried(s.notes) + s.queue
            && Tried(s.notes) <= AskedFor(s.notes)
  {
    RunKeepsInv(lib, disk, events);
  }

  /** A step that runs the next write removes it from the queue and, unless the
      process dies, decides it, so one such step per queued write empties the queue. */
  lemma {:induction false} QueueDrains(lib: Library, disk: Disk, events: seq<Event>, more: seq<Event>)
    requires |more| == |Run(lib, disk, events).queue|
    requires forall j :: 0 <= j < |more| ==> more[j].RunNext? && !Dies(more[j].fate)
    ensures Tried(Run(lib, disk, events + more).notes) == AskedFor(Run(lib, disk, events).notes)
  {
    RunKeepsInv(lib, disk, events);
    RunKeepsInv(lib, disk, events + more);
    HeadsTaken(lib, disk, events, more);
    var notes := Run(lib, disk, events + more).notes;
    assert Tried(notes) + [] == Tried(notes);
  }

  lemma {:induction false} HeadsTaken(lib: Library, disk: Disk, events: seq<Event>, more: seq<Event>)
    requires |more| <= |Run(lib, disk, events).queue|
    requires forall j :: 0 <= j < |more| ==> more[j].RunNext? && !Dies(more[j].fate)
    ensures Run(lib, disk, events + more).queue == Run(lib, disk, events).queue[|more|..]
    ensures AskedFor(Run(lib, disk, events + more).notes) == AskedFor(Run(lib, disk, events).notes)
    decreases |more|
  {
    if more == [] {
      assert events + more == events;
    } else {
      var s, first := Run(lib, disk, events), more[0];
      RunOneMore(lib, disk, events, first);
      TakesHead(lib, disk.main, s, first);
      HeadsTaken(lib, disk, events + [first], more[1..]);
      PopFront(events, more);
      DropTwice(s.queue, |more|);
    }
  }

  lemma DropTwice<T>(s: seq<T>, n: nat)
    requires 1 <= n <= |s|
    ensures s[1..][n - 1..] == s[n..]
  {
  }

  lemma RunOneMore(lib: Library, disk: Disk, events: seq<Event>, event: Event)
    ensures Run(lib, disk, events + [event]) == Next(lib, Run(lib, disk, events), event)
  {
    var longer := events + [event];
    assert longer[..|longer| - 1] == events;
  }

  lemma TakesHead(lib: Library, start: Option<string>, s: System, event: Event)
    requires event.RunNext? && !Dies(event.fate) && s.queue != []
    ensures Next(lib, s, event).queue == s.queue[1..]
    ensures AskedFor(Next(lib, s, event).notes) == AskedFor(s.notes)
  {
    var t := Next(lib, s, event);
    AddNote(lib, start, s.notes, t.notes[|s.notes|]);
    assert AskedFor(s.notes) + [] == AskedFor(s.notes);
  }
}
