/** The verification ledger: any number of processes append rows to one file,
    any of them may crash or write short at any point. */
module VerificationLedger {
  import opened Options
  import opened Splitting

  type Byte = b: int | 0 <= b < 256

  type Bytes = seq<Byte>

  const TAB: Byte := 9
  const LF: Byte := 10
  const CR: Byte := 13
  const SPACE: Byte := 32

  // ---- Rows ------------------------------------------------------------------

  predicate IsBreak(b: Byte) {
    b == TAB || b == LF || b == CR
  }

  /** Each run of tabs and line breaks becomes one space. */
  function TsvField(value: Bytes): Bytes {
    Collapse(value, false)
  }

  function Collapse(s: Bytes, inRun: bool): Bytes {
    if s == [] then []
    else if !IsBreak(s[0]) then [s[0]] + Collapse(s[1..], false)
    else if inRun then Collapse(s[1..], true)
    else [SPACE] + Collapse(s[1..], true)
  }

  datatype Verification = Verification(
    verdict: Bytes,
    baseSha: Bytes,
    headSha: Bytes,
    patchId: Option<Bytes>,
    verifier: Option<Bytes>,
    verifiedAt: Option<Bytes>,
    evidence: seq<Bytes>)

  /** An entry with the time its writer would fall back to. */
  datatype Entry = Entry(beadId: Bytes, verification: Verification, recordedAt: Option<Bytes>, now: Bytes)

  function OrEmpty(value: Option<Bytes>): Bytes {
    if value.Some? then value.value else []
  }

  function FieldsOf(e: Entry): seq<Bytes> {
    var v := e.verification;
    [ if e.recordedAt.Some? then e.recordedAt.value else if v.verifiedAt.Some? then v.verifiedAt.value else e.now,
      e.beadId, v.verdict, v.baseSha, v.headSha, OrEmpty(v.patchId), OrEmpty(v.verifier),
      Join([SPACE, 124, SPACE], v.evidence) ]
  }

  function Sanitised(fields: seq<Bytes>): seq<Bytes> {
    seq(|fields|, i requires 0 <= i < |fields| => TsvField(fields[i]))
  }

  function RowText(e: Entry): Bytes {
    Join([TAB], Sanitised(FieldsOf(e)))
  }

  function Row(e: Entry): Bytes {
    RowText(e) + [LF]
  }

  lemma {:induction false} CollapseHasNoBreaks(s: Bytes, inRun: bool)
    ensures forall b :: b in Collapse(s, inRun) ==> !IsBreak(b)
  {
    if s != [] {
      CollapseHasNoBreaks(s[1..], IsBreak(s[0]));
    }
  }

  /** A field that has no breaks is written unchanged, so sanitising is idempotent. */
  lemma {:induction false} CollapseKeepsCleanFields(s: Bytes, inRun: bool)
    requires forall b :: b in s ==> !IsBreak(b)
    ensures Collapse(s, inRun) == s
  {
    if s != [] {
      CollapseKeepsCleanFields(s[1..], false);
    }
  }

  predicate AllBreaks(s: Bytes) {
    forall b {:trigger b in s} :: b in s ==> IsBreak(b)
  }

  lemma {:induction false} RunIsDropped(breaks: Bytes, rest: Bytes)
    requires AllBreaks(breaks)
    ensures Collapse(breaks + rest, true) == Collapse(rest, true)
  {
    if breaks == [] {
      assert breaks + rest == rest;
    } else {
      assert breaks[0] in breaks && (breaks + rest)[1..] == breaks[1..] + rest;
      assert forall b {:trigger b in breaks[1..]} :: b in breaks[1..] ==> b in breaks;
      RunIsDropped(breaks[1..], rest);
    }
  }

  lemma {:induction false} CollapseAfterText(text: Bytes, rest: Bytes, inRun: bool)
    requires text != [] && forall b :: b in text ==> !IsBreak(b)
    ensures Collapse(text + rest, inRun) == text + Collapse(rest, false)
  {
    assert text[0] in text && (text + rest)[1..] == text[1..] + rest;
    if |text| == 1 {
      assert text[1..] + rest == rest;
    } else {
      CollapseAfterText(text[1..], rest, false);
      assert text == [text[0]] + text[1..];
    }
  }

  /** What a field becomes: text stays as it is, and a run of tabs and line breaks, however
      long and wherever it stands, becomes one space. */
  lemma FieldOfTextAndBreaks(text: Bytes, breaks: Bytes, rest: Bytes)
    requires (forall b :: b in text ==> !IsBreak(b)) && AllBreaks(breaks) && breaks != []
    requires rest == [] || !IsBreak(rest[0])
    ensures TsvField((text + breaks) + rest) == (text + [32]) + TsvField(rest)
  {
    assert (text + breaks) + rest == text + (breaks + rest);
    assert breaks[0] in breaks && (breaks + rest)[1..] == breaks[1..] + rest;
    assert forall b {:trigger b in breaks[1..]} :: b in breaks[1..] ==> b in breaks;
    RunIsDropped(breaks[1..], rest);
    assert Collapse(rest, true) == Collapse(rest, false);
    assert Collapse(breaks + rest, false) == [SPACE] + Collapse(rest, false);
    if text == [] {
      assert text + (breaks + rest) == breaks + rest && text + [32] == [32];
    } else {
      CollapseAfterText(text, breaks + rest, false);
      assert text + ([SPACE] + Collapse(rest, false)) == (text + [32]) + Collapse(rest, false);
    }
  }

  /** The eight fields of a row, by their places. The time is the entry's own, or that of the
      verification, or the writer's. */
  lemma FieldsByPlace(e: Entry)
    ensures var fields, v := Sanitised(FieldsOf(e)), e.verification;
            && |fields| == 8
            && fields[0] == TsvField(e.recordedAt.GetOr(v.verifiedAt.GetOr(e.now)))
            && fields[1] == TsvField(e.beadId) && fields[2] == TsvField(v.verdict)
            && fields[3] == TsvField(v.baseSha) && fields[4] == TsvField(v.headSha)
            && fields[5] == TsvField(v.patchId.GetOr([])) && fields[6] == TsvField(v.verifier.GetOr([]))
    ensures e.verification.evidence == [] ==> Sanitised(FieldsOf(e))[7] == []
    ensures forall x, y :: e.verification.evidence == [x, y] ==>
            Sanitised(FieldsOf(e))[7] == TsvField((x + [32, 124, 32]) + y)
  {
    var evidence := e.verification.evidence;
    if |evidence| == 2 {
      var x, y := evidence[0], evidence[1];
      assert evidence[1..] == [y];
      assert Join([SPACE, 124, SPACE], evidence) == (x + [32, 124, 32]) + y;
    }
  }

  /** A row is one line, and splitting it on tabs gives back the eight sanitised fields. */
  lemma RowRoundTrip(e: Entry)
    ensures LF !in RowText(e)
    ensures |FieldsOf(e)| == 8 && Split(TAB, RowText(e)) == Sanitised(FieldsOf(e))
  {
    var fields := Sanitised(FieldsOf(e));
    forall i | 0 <= i < |fields| ensures TAB !in fields[i] && LF !in fields[i] {
      CollapseHasNoBreaks(FieldsOf(e)[i], false);
    }
    SplitUndoesJoin(TAB, fields);
    JoinHasNo(LF, TAB, fields);
  }

  // ---- The file and its writers ------------------------------------------------

  /** Where a writer is. `seen` counts the writes that had reached the file when
      the writer asked for its size. */
  datatype Phase =
    | Starting
    | Linking
    | Opened
    | Measured(size: nat, seen: nat)
    | Ready(closeLine: bool, seen: nat)
    | Written
    | Acknowledged
    | Gone

  /** One write that reached the file: the first `n` bytes of the writer's line. */
  datatype Write = Write(writer: nat, closeLine: bool, seen: nat, n: nat)

  /** The writers and the file; `rows[p]` is the row that writer `p` is to append. */
  datatype System = System(
    rows: seq<Bytes>,
    header: Bytes,
    file: Option<Bytes>,
    phases: seq<Phase>,
    linked: nat,
    log: seq<Write>)

  /** What can happen next; `n` is how many bytes the operating system accepts. */
  datatype Event =
    | Look(writer: nat)
    | Link(writer: nat, n: nat)
    | Measure(writer: nat)
    | ReadLast(writer: nat)
    | Append(writer: nat, n: nat)
    | Acknowledge(writer: nat)
    | Crash(writer: nat)

  /** What a writer hands to `write`: a newline first if the last line is unfinished. */
  function LineOf(row: Bytes, closeLine: bool): Bytes {
    if closeLine then [LF] + row else row
  }

  function Move(s: System, p: nat, phase: Phase): System
    requires p < |s.phases|
  {
    s.(phases := s.phases[p := phase])
  }

  /** One step of one writer; an event that does not apply changes nothing. */
  function Next(s: System, event: Event): System {
    var p := event.writer;
    if p >= |s.phases| || |s.phases| != |s.rows| then s
    else
      match event
      case Look(_) =>
        if !s.phases[p].Starting? then s
        else Move(s, p, if s.file.None? then Linking else Opened)
      case Link(_, n) =>
        if !s.phases[p].Linking? || n > |s.header| then s
        else if s.file.Some? then Move(s, p, Opened)
        else Move(s, p, Opened).(file := Some(s.header[..n]), linked := n)
      case Measure(_) =>
        if !s.phases[p].Opened? || s.file.None? then s
        else Move(s, p, Measured(|s.file.value|, |s.log|))
      case ReadLast(_) =>
        if !s.phases[p].Measured? || s.file.None? then s
        else
          var size := s.phases[p].size;
          Move(s, p, Ready(0 < size <= |s.file.value| && s.file.value[size - 1] != LF, s.phases[p].seen))
      case Append(_, n) =>
        if !s.phases[p].Ready? || s.file.None? then s
        else
          var line := LineOf(s.rows[p], s.phases[p].closeLine);
          if n > |line| then s
          else
            Move(s, p, if n == |line| then Written else Gone)
              .(file := Some(s.file.value + line[..n]),
                log := s.log + [Write(p, s.phases[p].closeLine, s.phases[p].seen, n)])
      case Acknowledge(_) =>
        if !s.phases[p].Written? then s else Move(s, p, Acknowledged)
      case Crash(_) =>
        if s.phases[p].Acknowledged? then s else Move(s, p, Gone)
  }

  function Start(rows: seq<Bytes>, header: Bytes): System {
    System(rows, header, None, seq(|rows|, _ => Starting), 0, [])
  }

  function Run(s: System, events: seq<Event>): System {
    if events == [] then s else Next(Run(s, events[..|events| - 1]), events[|events| - 1])
  }

  // ---- What the log says about the file ----------------------------------------

  function Piece(s: System, w: Write): Bytes
    requires w.writer < |s.rows|
  {
    var line := LineOf(s.rows[w.writer], w.closeLine);
    if w.n <= |line| then line[..w.n] else line
  }

  predicate Whole(s: System, w: Write)
    requires w.writer < |s.rows|
  {
    w.n == |LineOf(s.rows[w.writer], w.closeLine)|
  }

  ghost predicate LogInRange(s: System) {
    forall i :: 0 <= i < |s.log| ==> s.log[i].writer < |s.rows|
  }

  /** The file after the first `k` writes. */
  function Content(s: System, k: nat): Bytes
    requires k <= |s.log| && LogInRange(s) && s.linked <= |s.header|
  {
    if k == 0 then s.header[..s.linked] else Content(s, k - 1) + Piece(s, s.log[k - 1])
  }

  predicate EndsLine(b: Bytes) {
    b == [] || b[|b| - 1] == LF
  }

  ghost predicate FileInv(s: System) {
    && |s.phases| == |s.rows| && s.linked <= |s.header| && LogInRange(s)
    && (s.file.None? ==> s.log == [])
    && (s.file.Some? ==> s.file.value == Content(s, |s.log|))
  }

  /** A writer acts on what it last saw of the file. */
  ghost predicate PhaseInv(s: System, phase: Phase)
    requires FileInv(s)
  {
    match phase
    case Starting => true
    case Linking => true
    case Gone => true
    case Measured(size, seen) => s.file.Some? && seen <= |s.log| && size == |Content(s, seen)|
    case Ready(closeLine, seen) => s.file.Some? && seen <= |s.log| && closeLine == !EndsLine(Content(s, seen))
    case _ => s.file.Some?
  }

  ghost predicate WriteInv(s: System, i: nat)
    requires FileInv(s) && i < |s.log|
  {
    var w := s.log[i];
    && w.seen <= i && w.n <= |LineOf(s.rows[w.writer], w.closeLine)|
    && w.closeLine == !EndsLine(Content(s, w.seen))
    && (s.phases[w.writer].Gone? || (Whole(s, w) && (s.phases[w.writer].Written? || s.phases[w.writer].Acknowledged?)))
  }

  /** The writer's whole line is in the log. */
  ghost predicate Logged(s: System, p: nat)
    requires LogInRange(s)
  {
    exists i :: 0 <= i < |s.log| && s.log[i].writer == p && Whole(s, s.log[i])
  }

  ghost predicate PhasesInv(s: System)
    requires FileInv(s)
  {
    forall p {:trigger s.phases[p]} :: 0 <= p < |s.phases| ==> PhaseInv(s, s.phases[p])
  }

  ghost predicate WritesInv(s: System)
    requires FileInv(s)
  {
    forall i {:trigger WriteInv(s, i)} :: 0 <= i < |s.log| ==> WriteInv(s, i)
  }

  /** No writer writes twice. */
  ghost predicate WritersApart(log: seq<Write>) {
    forall i, j :: 0 <= i < j < |log| ==> log[i].writer != log[j].writer
  }

  ghost predicate FinishedAreLogged(s: System)
    requires FileInv(s)
  {
    forall p {:trigger Logged(s, p)} ::
      0 <= p < |s.phases| && (s.phases[p].Written? || s.phases[p].Acknowledged?) ==> Logged(s, p)
  }

  ghost predicate Inv(s: System) {
    FileInv(s) && PhasesInv(s) && WritesInv(s) && WritersApart(s.log) && FinishedAreLogged(s)
  }

  lemma {:induction false} ContentGrows(s: System, k: nat, m: nat)
    requires k <= m <= |s.log| && LogInRange(s) && s.linked <= |s.header|
    ensures Content(s, k) <= Content(s, m)
  {
    if k < m {
      ContentGrows(s, k, m - 1);
      assert Content(s, m - 1) <= Content(s, m);
    }
  }

  /** Steps that leave the file alone, or only append to the log, keep its past. */
  lemma {:induction false} ContentKept(s: System, t: System, k: nat)
    requires k <= |s.log| && LogInRange(s) && s.linked <= |s.header|
    requires t.rows == s.rows && t.header == s.header && s.log <= t.log && LogInRange(t)
    requires t.linked == s.linked
    ensures Content(t, k) == Content(s, k)
  {
    if k > 0 {
      ContentKept(s, t, k - 1);
      assert t.log[k - 1] == s.log[k - 1];
    }
  }

  /** `t` differs from `s` in the phase of `p` only. */
  ghost predicate OnlyMoves(s: System, t: System, p: nat) {
    && p < |s.phases| && |t.phases| == |s.phases| && t == s.(phases := t.phases)
    && forall q {:trigger t.phases[q]} :: 0 <= q < |s.phases| && q != p ==> t.phases[q] == s.phases[q]
  }

  lemma MoveKeepsInv(s: System, t: System, p: nat)
    requires Inv(s) && OnlyMoves(s, t, p)
    requires FileInv(t) ==> PhaseInv(t, t.phases[p])
    requires t.phases[p].Acknowledged? || t.phases[p].Written? ==> s.phases[p].Written?
    requires s.phases[p].Written? ==> t.phases[p].Acknowledged? || t.phases[p].Gone?
    requires s.phases[p].Acknowledged? || s.phases[p].Gone? ==> t.phases[p] == s.phases[p] || t.phases[p].Gone?
    ensures Inv(t)
  {
    forall k | 0 <= k <= |s.log| ensures Content(t, k) == Content(s, k) {
      ContentKept(s, t, k);
    }
    forall q | 0 <= q < |t.phases| ensures PhaseInv(t, t.phases[q]) {
      assert q != p ==> PhaseInv(s, s.phases[q]);
    }
    forall i | 0 <= i < |t.log| ensures WriteInv(t, i) {
      assert WriteInv(s, i);
    }
    forall q | 0 <= q < |t.phases| && (t.phases[q].Written? || t.phases[q].Acknowledged?) ensures Logged(t, q) {
      assert Logged(s, q);
      var i :| 0 <= i < |s.log| && s.log[i].writer == q && Whole(s, s.log[i]);
      assert Whole(t, t.log[i]);
    }
  }

  lemma LinkKeepsInv(s: System, p: nat, n: nat)
    requires Inv(s) && p < |s.phases| && s.phases[p].Linking? && s.file.None? && n <= |s.header|
    ensures Inv(Next(s, Link(p, n)))
  {
    var t := Next(s, Link(p, n));
    forall q | 0 <= q < |t.phases| ensures PhaseInv(t, t.phases[q]) {
      assert q != p ==> PhaseInv(s, s.phases[q]);
    }
  }

  /** `t` is `s` after writer `p` got the first `n` bytes of its line into the file. */
  ghost predicate Appends(s: System, t: System, p: nat, n: nat) {
    && FileInv(s) && p < |s.phases| && s.phases[p].Ready? && s.file.Some? && PhaseInv(s, s.phases[p])
    && n <= |LineOf(s.rows[p], s.phases[p].closeLine)|
    && t.rows == s.rows && t.header == s.header && t.linked == s.linked
    && |t.log| == |s.log| + 1 && s.log <= t.log
    && t.log[|s.log|] == Write(p, s.phases[p].closeLine, s.phases[p].seen, n)
    && t.file == Some(s.file.value + LineOf(s.rows[p], s.phases[p].closeLine)[..n])
    && |t.phases| == |s.phases|
    && t.phases[p] == (if n == |LineOf(s.rows[p], s.phases[p].closeLine)| then Written else Gone)
    && forall q {:trigger t.phases[q]} :: 0 <= q < |s.phases| && q != p ==> t.phases[q] == s.phases[q]
  }

  ghost predicate SameContent(s: System, t: System, k: nat) {
    && k <= |s.log| && k <= |t.log| && LogInRange(s) && LogInRange(t) && s.linked <= |s.header|
        && t.linked <= |t.header|
    && Content(t, k) == Content(s, k)
  }

  lemma AppendKeepsPast(s: System, t: System, p: nat, n: nat)
    requires Appends(s, t, p, n)
    ensures LogInRange(t) && t.linked <= |t.header| && SamePast(s, t)
  {
    forall i | 0 <= i < |t.log| ensures t.log[i].writer < |t.rows| {
      assert i < |s.log| ==> t.log[i] == s.log[i];
    }
    forall k | 0 <= k <= |s.log| ensures SameContent(s, t, k) {
      ContentKept(s, t, k);
    }
  }

  lemma AppendKeepsFile(s: System, t: System, p: nat, n: nat)
    requires Appends(s, t, p, n)
    ensures FileInv(t) && SamePast(s, t)
  {
    AppendKeepsPast(s, t, p, n);
    assert SameContent(s, t, |s.log|);
    assert Piece(t, t.log[|s.log|]) == LineOf(s.rows[p], s.phases[p].closeLine)[..n];
  }

  lemma AppendKeepsPhases(s: System, t: System, p: nat, n: nat, q: nat)
    requires Appends(s, t, p, n) && FileInv(t) && q < |s.phases| && PhaseInv(s, s.phases[q])
    requires s.phases[q].Measured? || s.phases[q].Ready? ==> SameContent(s, t, s.phases[q].seen)
    ensures PhaseInv(t, t.phases[q])
  {
  }

  lemma OldWriteKept(s: System, t: System, p: nat, i: nat)
    requires FileInv(s) && FileInv(t) && t.rows == s.rows && |t.phases| == |s.phases|
    requires i < |s.log| && i < |t.log| && t.log[i] == s.log[i] && WriteInv(s, i)
    requires p < |s.phases| && s.phases[p].Ready?
    requires s.log[i].writer != p ==> t.phases[s.log[i].writer] == s.phases[s.log[i].writer]
    requires SameContent(s, t, s.log[i].seen)
    ensures s.log[i].writer != p && WriteInv(t, i)
  {
  }

  lemma NewWriteHolds(s: System, t: System, p: nat, n: nat)
    requires Appends(s, t, p, n) && FileInv(t) && SameContent(s, t, s.phases[p].seen)
    ensures WriteInv(t, |s.log|)
  {
  }

  lemma AppendKeepsLogged(s: System, t: System, p: nat, n: nat, q: nat)
    requires Appends(s, t, p, n) && LogInRange(t) && q < |s.phases|
    requires q == p ==> t.phases[p].Written?
    requires q != p ==> Logged(s, q)
    ensures Logged(t, q)
  {
    if q == p {
      assert t.log[|s.log|].writer == p;
    } else {
      var i :| 0 <= i < |s.log| && s.log[i].writer == q && Whole(s, s.log[i]);
      assert t.log[i] == s.log[i];
    }
  }

  ghost predicate SamePast(s: System, t: System) {
    forall k {:trigger SameContent(s, t, k)} :: 0 <= k <= |s.log| ==> SameContent(s, t, k)
  }

  lemma AppendKeepsPhasesInv(s: System, t: System, p: nat, n: nat)
    requires Appends(s, t, p, n) && PhasesInv(s) && FileInv(t) && SamePast(s, t)
    ensures PhasesInv(t)
  {
    forall q | 0 <= q < |t.phases| ensures PhaseInv(t, t.phases[q]) {
      assert PhaseInv(s, s.phases[q]);
      assert s.phases[q].Measured? || s.phases[q].Ready? ==> SameContent(s, t, s.phases[q].seen);
      AppendKeepsPhases(s, t, p, n, q);
    }
  }

  lemma OldWriteInAppend(s: System, t: System, p: nat, n: nat, i: nat)
    requires Appends(s, t, p, n) && FileInv(t) && SamePast(s, t) && i < |s.log| && WriteInv(s, i)
    ensures WriteInv(t, i)
  {
    assert t.log[i] == s.log[i];
    assert SameContent(s, t, s.log[i].seen);
    OldWriteKept(s, t, p, i);
  }

  /** A writer that is about to write has not written yet. */
  lemma ReadyWriterIsNew(s: System, p: nat)
    requires FileInv(s) && WritesInv(s) && p < |s.phases| && s.phases[p].Ready?
    ensures forall i :: 0 <= i < |s.log| ==> s.log[i].writer != p
  {
    forall i | 0 <= i < |s.log| ensures s.log[i].writer != p {
      assert WriteInv(s, i);
    }
  }

  lemma AppendKeepsWritesInv(s: System, t: System, p: nat, n: nat)
    requires Appends(s, t, p, n) && WritesInv(s) && FileInv(t) && SamePast(s, t)
    ensures WritesInv(t)
  {
    forall i {:trigger WriteInv(t, i)} | 0 <= i < |s.log| ensures WriteInv(t, i) {
      assert WriteInv(s, i);
      OldWriteInAppend(s, t, p, n, i);
    }
    assert SameContent(s, t, s.phases[p].seen);
    NewWriteHolds(s, t, p, n);
    OneMoreWrite(t, |s.log|);
  }

  lemma OneMoreWrite(t: System, n: nat)
    requires FileInv(t) && |t.log| == n + 1 && WriteInv(t, n)
    requires forall i {:trigger WriteInv(t, i)} :: 0 <= i < n ==> WriteInv(t, i)
    ensures WritesInv(t)
  {
    forall i | 0 <= i < |t.log| ensures WriteInv(t, i) {
      if i == n { assert WriteInv(t, n); }
    }
  }

  lemma NextWriterApart(log: seq<Write>, longer: seq<Write>)
    requires WritersApart(log) && |longer| == |log| + 1 && log <= longer
    requires forall i :: 0 <= i < |log| ==> log[i].writer != longer[|log|].writer
    ensures WritersApart(longer)
  {
    forall i | 0 <= i < |log| ensures longer[i] == log[i] {}
  }

  lemma AppendKeepsInv(s: System, t: System, p: nat, n: nat)
    requires Inv(s) && Appends(s, t, p, n)
    ensures Inv(t)
  {
    AppendKeepsFile(s, t, p, n);
    AppendKeepsPhasesInv(s, t, p, n);
    AppendKeepsWritesInv(s, t, p, n);
    ReadyWriterIsNew(s, p);
    NextWriterApart(s.log, t.log);
    forall q | 0 <= q < |t.phases| && (t.phases[q].Written? || t.phases[q].Acknowledged?) ensures Logged(t, q) {
      assert q != p ==> Logged(s, q);
      AppendKeepsLogged(s, t, p, n, q);
    }
  }

  lemma ReadLastSeesEnd(s: System, p: nat)
    requires Inv(s) && p < |s.phases| && s.phases[p].Measured?
    ensures var size := s.phases[p].size;
            && size <= |s.file.value|
            && (0 < size && s.file.value[size - 1] != LF) == !EndsLine(Content(s, s.phases[p].seen))
  {
    assert PhaseInv(s, s.phases[p]);
    ContentGrows(s, s.phases[p].seen, |s.log|);
  }

  lemma ReadLastKeepsInv(s: System, p: nat)
    requires Inv(s) && p < |s.phases| && s.phases[p].Measured? && s.file.Some?
    ensures Inv(Next(s, ReadLast(p)))
  {
    var t := Next(s, ReadLast(p));
    assert PhaseInv(s, s.phases[p]);
    ReadLastSeesEnd(s, p);
    ContentKept(s, t, s.phases[p].seen);
    MoveKeepsInv(s, t, p);
  }

  lemma MeasureKeepsInv(s: System, p: nat)
    requires Inv(s) && p < |s.phases| && s.phases[p].Opened? && s.file.Some?
    ensures Inv(Next(s, Measure(p)))
  {
    var t := Next(s, Measure(p));
    ContentKept(s, t, |s.log|);
    MoveKeepsInv(s, t, p);
  }

  lemma AcknowledgeKeepsInv(s: System, p: nat)
    requires Inv(s) && p < |s.phases| && s.phases[p].Written?
    ensures Inv(Next(s, Acknowledge(p)))
  {
    assert PhaseInv(s, s.phases[p]);
    MoveKeepsInv(s, Next(s, Acknowledge(p)), p);
  }

  /** Every event keeps the invariant. */
  lemma StepKeepsInv(s: System, event: Event)
    requires Inv(s)
    ensures Inv(Next(s, event))
  {
    var t, p := Next(s, event), event.writer;
    if t != s {
      match event
      case Link(_, n) =>
        if s.file.None? {
          LinkKeepsInv(s, p, n);
        } else {
          MoveKeepsInv(s, t, p);
        }
      case Append(_, n) =>
        assert PhaseInv(s, s.phases[p]);
        AppendKeepsInv(s, t, p, n);
      case ReadLast(_) => ReadLastKeepsInv(s, p);
      case Measure(_) => MeasureKeepsInv(s, p);
      case Look(_) => MoveKeepsInv(s, t, p);
      case Acknowledge(_) => AcknowledgeKeepsInv(s, p);
      case Crash(_) => MoveKeepsInv(s, t, p);
    }
  }

  lemma {:induction false} RunKeepsInv(rows: seq<Bytes>, header: Bytes, events: seq<Event>)
    ensures var s := Run(Start(rows, header), events); Inv(s) && s.rows == rows && s.header == header
  {
    if events != [] {
      RunKeepsInv(rows, header, events[..|events| - 1]);
      StepKeepsInv(Run(Start(rows, header), events[..|events| - 1]), events[|events| - 1]);
    }
  }

  // ---- Without torn writes -------------------------------------------------------

  predicate IsLine(b: Bytes) {
    b != [] && b[|b| - 1] == LF
  }

  ghost predicate AllLines(rows: seq<Bytes>) {
    forall p :: 0 <= p < |rows| ==> IsLine(rows[p])
  }

  /** Every write that reached the file was complete. */
  ghost predicate NothingTorn(s: System)
    requires FileInv(s)
  {
    && (s.file.Some? ==> s.linked == |s.header|)
    && forall i :: 0 <= i < |s.log| ==> Whole(s, s.log[i])
  }

  /** The rows of the first `k` writes, in the order they were written. */
  function RowsInOrder(s: System, k: nat): Bytes
    requires k <= |s.log| && LogInRange(s)
  {
    if k == 0 then [] else RowsInOrder(s, k - 1) + s.rows[s.log[k - 1].writer]
  }

  lemma WholeWriteIsRow(s: System, i: nat)
    requires LogInRange(s) && s.linked <= |s.header| && i < |s.log| && Whole(s, s.log[i]) && !s.log[i].closeLine
    ensures Content(s, i + 1) == Content(s, i) + s.rows[s.log[i].writer]
  {
  }

  /** A writer that saw a finished last line does not add a newline. */
  lemma {:induction false} WriteIsPlain(s: System, i: nat)
    requires FileInv(s) && WritesInv(s) && NothingTorn(s) && IsLine(s.header) && AllLines(s.rows) && s.file.Some?
             && i < |s.log|
    ensures !s.log[i].closeLine
    decreases i, 1
  {
    assert WriteInv(s, i);
    WholeWritesAreRows(s, s.log[i].seen);
  }

  lemma AppendLine(content: Bytes, header: Bytes, rows: Bytes, row: Bytes)
    requires content == header + rows && IsLine(row)
    ensures content + row == header + (rows + row) && EndsLine(content + row)
  {
  }

  lemma WholeStep(s: System, k: nat, before: Bytes)
    requires LogInRange(s) && s.linked <= |s.header| && 0 < k <= |s.log| && Whole(s, s.log[k - 1])
             && !s.log[k - 1].closeLine
    requires IsLine(s.rows[s.log[k - 1].writer]) && before == RowsInOrder(s, k - 1)
             && Content(s, k - 1) == s.header + before
    ensures Content(s, k) == s.header + RowsInOrder(s, k) && EndsLine(Content(s, k))
  {
    WholeWriteIsRow(s, k - 1);
    AppendLine(Content(s, k - 1), s.header, before, s.rows[s.log[k - 1].writer]);
  }

  lemma {:induction false} WholeWritesAreRows(s: System, k: nat)
    requires FileInv(s) && WritesInv(s) && NothingTorn(s) && IsLine(s.header) && AllLines(s.rows) && s.file.Some?
             && k <= |s.log|
    ensures Content(s, k) == s.header + RowsInOrder(s, k)
    ensures EndsLine(Content(s, k))
    decreases k, 0
  {
    if k > 0 {
      WholeWritesAreRows(s, k - 1);
      WriteIsPlain(s, k - 1);
      WholeStep(s, k, RowsInOrder(s, k - 1));
    }
  }

  /** Exactly one of the writes is the writer's, and it is complete. */
  ghost predicate WroteOnce(s: System, p: nat)
    requires LogInRange(s)
  {
    exists i :: 0 <= i < |s.log| && s.log[i].writer == p && Whole(s, s.log[i]) && OnlyWriteOf(s.log, p, i)
  }

  ghost predicate OnlyWriteOf(log: seq<Write>, p: nat, i: nat) {
    forall j :: 0 <= j < |log| && log[j].writer == p ==> j == i
  }

  lemma AcknowledgedWroteOnce(s: System, p: nat)
    requires Inv(s) && p < |s.phases| && s.phases[p].Acknowledged?
    ensures s.file.Some? && WroteOnce(s, p)
  {
    assert PhaseInv(s, s.phases[p]) && Logged(s, p);
    var i :| 0 <= i < |s.log| && s.log[i].writer == p && Whole(s, s.log[i]);
    assert OnlyWriteOf(s.log, p, i);
  }

  /** For any interleaving of any number of writers with no torn write, the file,
      once it exists, is the header followed by whole rows in write order, and
      every acknowledged append has exactly one row in it. */
  lemma LedgerIsHeaderThenRows(rows: seq<Bytes>, header: Bytes, events: seq<Event>)
    requires IsLine(header) && AllLines(rows)
    ensures var s := Run(Start(rows, header), events);
            && FileInv(s)
            && (NothingTorn(s) && s.file.Some? ==> s.file.value == header + RowsInOrder(s, |s.log|))
            && (forall p :: 0 <= p < |s.phases| && s.phases[p].Acknowledged? ==> s.file.Some? && WroteOnce(s, p))
  {
    RunKeepsInv(rows, header, events);
    var s := Run(Start(rows, header), events);
    if NothingTorn(s) && s.file.Some? {
      WholeWritesAreRows(s, |s.log|);
    }
    forall p | 0 <= p < |s.phases| && s.phases[p].Acknowledged? ensures s.file.Some? && WroteOnce(s, p) {
      AcknowledgedWroteOnce(s, p);
    }
  }

  // ---- With torn writes ------------------------------------------------------------

  /** The write starts a line: it brings its own newline or lands after one. */
  predicate StartsLine(s: System, i: nat)
    requires i < |s.log| && LogInRange(s) && s.linked <= |s.header|
  {
    s.log[i].closeLine || EndsLine(Content(s, i))
  }

  /** What a write left in the file ends a line: it was complete, or it was cut right after
      the newline that it brought. */
  predicate LeavesLineEnd(s: System, w: Write)
    requires w.writer < |s.rows|
  {
    Whole(s, w) || (w.closeLine && w.n == 1)
  }

  /** Of the writes from `lo` to `hi`, the last that left anything in the file, if there is
      one, leaves the end of a line. */
  predicate WindowEndsLine(s: System, lo: nat, hi: nat)
    requires lo <= hi <= |s.log| && LogInRange(s)
  {
    lo == hi
    || (if s.log[hi - 1].n == 0 then WindowEndsLine(s, lo, hi - 1) else LeavesLineEnd(s, s.log[hi - 1]))
  }

  /** Rows are lines, with no newline before the last byte. */
  ghost predicate RowsAreLines(rows: seq<Bytes>) {
    forall p {:trigger rows[p]} :: 0 <= p < |rows| ==> IsLine(rows[p]) && LF !in rows[p][..|rows[p]| - 1]
  }

  lemma LineOfAt(row: Bytes, closeLine: bool, n: nat)
    requires IsLine(row) && LF !in row[..|row| - 1] && 0 < n <= |LineOf(row, closeLine)|
    ensures LineOf(row, closeLine)[n - 1] == LF <==> n == |LineOf(row, closeLine)| || (closeLine && n == 1)
  {
    var k := if closeLine then n - 2 else n - 1;
    if 0 <= k < |row| - 1 {
      assert row[..|row| - 1][k] != LF;
    }
  }

  /** A write that left something in the file ends a line exactly when `LeavesLineEnd` says so. */
  lemma PieceEndsLineIff(s: System, w: Write)
    requires w.writer < |s.rows| && RowsAreLines(s.rows) && 0 < w.n <= |LineOf(s.rows[w.writer], w.closeLine)|
    ensures Piece(s, w) != [] && (EndsLine(Piece(s, w)) <==> LeavesLineEnd(s, w))
  {
    LineOfAt(s.rows[w.writer], w.closeLine, w.n);
  }

  lemma ContentEndsWithPiece(s: System, k: nat)
    requires LogInRange(s) && s.linked <= |s.header| && 0 < k <= |s.log|
    ensures Piece(s, s.log[k - 1]) == [] ==> Content(s, k) == Content(s, k - 1)
    ensures Piece(s, s.log[k - 1]) != [] ==> (EndsLine(Content(s, k)) <==> EndsLine(Piece(s, s.log[k - 1])))
  {
  }

  lemma LineEndStep(s: System, k: nat)
    requires LogInRange(s) && s.linked <= |s.header| && RowsAreLines(s.rows) && k < |s.log|
    requires s.log[k].n <= |LineOf(s.rows[s.log[k].writer], s.log[k].closeLine)|
    ensures EndsLine(Content(s, k + 1)) <==> if s.log[k].n == 0 then EndsLine(Content(s, k))
            else LeavesLineEnd(s, s.log[k])
  {
    ContentEndsWithPiece(s, k + 1);
    if s.log[k].n > 0 {
      PieceEndsLineIff(s, s.log[k]);
    }
  }

  ghost predicate PiecesFit(s: System)
    requires LogInRange(s)
  {
    forall k {:trigger s.log[k]} :: 0 <= k < |s.log| ==>
        s.log[k].n <= |LineOf(s.rows[s.log[k].writer], s.log[k].closeLine)|
  }

  /** `ends[k]` says whether a line ended after the first `k` writes. */
  predicate EndStep(s: System, ends: seq<bool>, k: nat)
    requires LogInRange(s) && k < |s.log| < |ends|
  {
    ends[k + 1] <==> if s.log[k].n == 0 then ends[k] else LeavesLineEnd(s, s.log[k])
  }

  lemma {:induction false} LastLeftDecides(s: System, ends: seq<bool>, lo: nat, hi: nat)
    requires LogInRange(s) && lo <= hi <= |s.log| < |ends| && ends[lo]
    requires forall k {:trigger EndStep(s, ends, k)} :: lo <= k < hi ==> EndStep(s, ends, k)
    ensures ends[hi] <==> WindowEndsLine(s, lo, hi)
    decreases hi
  {
    if lo < hi {
      LastLeftDecides(s, ends, lo, hi - 1);
      assert EndStep(s, ends, hi - 1);
    }
  }

  ghost function LineEnds(s: System): (ends: seq<bool>)
    requires LogInRange(s) && s.linked <= |s.header|
    ensures |ends| == |s.log| + 1 && forall k {:trigger ends[k]} :: 0 <= k <= |s.log| ==>
            (ends[k] <==> EndsLine(Content(s, k)))
  {
    seq(|s.log| + 1, k requires 0 <= k <= |s.log| => EndsLine(Content(s, k)))
  }

  /** Where a line ended at `lo`, one ends at `hi` exactly when the window ends one. */
  lemma WindowDecides(s: System, lo: nat, hi: nat)
    requires LogInRange(s) && s.linked <= |s.header| && RowsAreLines(s.rows) && PiecesFit(s)
    requires lo <= hi <= |s.log| && EndsLine(Content(s, lo))
    ensures EndsLine(Content(s, hi)) <==> WindowEndsLine(s, lo, hi)
  {
    var ends := LineEnds(s);
    forall k {:trigger EndStep(s, ends, k)} | lo <= k < hi ensures EndStep(s, ends, k) {
      LineEndStep(s, k);
    }
    LastLeftDecides(s, ends, lo, hi);
  }

  /** A write starts a line if and only if its writer saw an unfinished line and closes it, or
      the last of the writes that came between its look at the file and itself, of those that
      left anything, left the end of a line. */
  lemma StartsLineIff(s: System, i: nat)
    requires Inv(s) && RowsAreLines(s.rows) && i < |s.log|
    ensures s.log[i].seen <= i
    ensures StartsLine(s, i) <==> s.log[i].closeLine || WindowEndsLine(s, s.log[i].seen, i)
    ensures s.log[i].closeLine <==> !EndsLine(Content(s, s.log[i].seen))
  {
    assert WriteInv(s, i);
    forall k | 0 <= k < |s.log| ensures s.log[k].n <= |LineOf(s.rows[s.log[k].writer], s.log[k].closeLine)| {
      assert WriteInv(s, k);
    }
    if !s.log[i].closeLine {
      WindowDecides(s, s.log[i].seen, i);
    }
  }

  /** The part of the file before the row of write `i`. */
  function BeforeRow(s: System, i: nat): Bytes
    requires i < |s.log| && LogInRange(s) && s.linked <= |s.header|
  {
    Content(s, i) + (if s.log[i].closeLine then [LF] else [])
  }

  lemma RowOfWhole(s: System, w: Write)
    requires w.writer < |s.rows| && Whole(s, w)
    ensures Piece(s, w) == (if w.closeLine then [LF] else []) + s.rows[w.writer]
  {
  }

  lemma ContentAfterRow(s: System, i: nat)
    requires LogInRange(s) && s.linked <= |s.header| && i < |s.log| && Whole(s, s.log[i])
    ensures Content(s, i + 1) == BeforeRow(s, i) + s.rows[s.log[i].writer]
    ensures EndsLine(BeforeRow(s, i)) <==> StartsLine(s, i)
  {
    RowOfWhole(s, s.log[i]);
    var close: Bytes := if s.log[i].closeLine then [LF] else [];
    assert Content(s, i) + (close + s.rows[s.log[i].writer]) == (Content(s, i) + close) + s.rows[s.log[i].writer];
  }

  lemma FileAroundRow(s: System, i: nat) returns (after: Bytes)
    requires FileInv(s) && i < |s.log| && Whole(s, s.log[i]) && s.file.Some?
    ensures s.file.value == BeforeRow(s, i) + s.rows[s.log[i].writer] + after
    ensures EndsLine(BeforeRow(s, i)) <==> StartsLine(s, i)
  {
    ContentGrows(s, i + 1, |s.log|);
    ContentAfterRow(s, i);
    after := s.file.value[|Content(s, i + 1)|..];
    PrefixAndRest(Content(s, i + 1), s.file.value);
  }

  lemma PrefixAndRest<T>(a: seq<T>, b: seq<T>)
    requires a <= b
    ensures b == a + b[|a|..]
  {
  }

  /** The line of the file that byte `offset` is on, counted from zero. */
  function LineNumber(file: Bytes, offset: nat): nat
    requires offset <= |file|
  {
    |Split(LF, file[..offset])| - 1
  }

  /** The unfinished last line of some bytes. */
  function Fragment(b: Bytes): Bytes {
    Split(LF, b)[|Split(LF, b)| - 1]
  }

  lemma {:induction false} FragmentIsEmptyIff(b: Bytes)
    ensures Fragment(b) == [] <==> EndsLine(b)
  {
    JoinUndoesSplit(LF, b);
    SplitHasNoSeparator(LF, b);
    var lines := Split(LF, b);
    var front, last := lines[..|lines| - 1], lines[|lines| - 1];
    assert lines == front + [last];
    if front == [] {
      assert Join([LF], lines) == last;
      assert last != [] ==> last[|last| - 1] in last;
    } else {
      JoinAppend(LF, front, [last]);
      assert last != [] ==> last[|last| - 1] in last;
    }
  }

  /** What stands on the line of a row that has no newline of its own: the fragment before the
      row, and the row. */
  lemma LineOfRow(before: Bytes, text: Bytes, after: Bytes)
    requires LF !in text
    ensures var file := before + (text + [LF]) + after;
            && LineNumber(file, |before|) < |Split(LF, file)|
            && Split(LF, file)[LineNumber(file, |before|)] == Fragment(before) + text
  {
    var file := before + (text + [LF]) + after;
    assert file[..|before|] == before;
    var x := before + text;
    assert file == x + [LF] + after;
    SplitAppend(LF, x, after);
    SplitExtend(before, text);
  }

  lemma JoinExtends(front: seq<Bytes>, last: Bytes, text: Bytes)
    ensures Join([LF], front + [last + text]) == Join([LF], front + [last]) + text
  {
    if front != [] {
      JoinAppend(LF, front, [last]);
      JoinAppend(LF, front, [last + text]);
    }
  }

  /** Bytes without a newline go to the last line. */
  lemma SplitExtend(b: Bytes, text: Bytes)
    requires LF !in text
    ensures Split(LF, b + text) == Split(LF, b)[..|Split(LF, b)| - 1] + [Fragment(b) + text]
  {
    var lines := Split(LF, b);
    var front, last := lines[..|lines| - 1], Fragment(b);
    assert lines == front + [last];
    JoinUndoesSplit(LF, b);
    SplitHasNoSeparator(LF, b);
    JoinExtends(front, last, text);
    var more := front + [last + text];
    forall k | 0 <= k < |more| ensures LF !in more[k] {
      assert k < |front| ==> more[k] == lines[k];
    }
    SplitUndoesJoin(LF, more);
  }

  lemma {:induction false} SplitNeverShrinks(a: Bytes, b: Bytes)
    ensures |Split(LF, a + b)| >= |Split(LF, a)|
  {
    if a != [] {
      assert (a + b)[1..] == a[1..] + b;
      SplitNeverShrinks(a[1..], b);
    }
  }

  /** Past a newline the line number is larger. */
  lemma LineNumberGrows(file: Bytes, a: nat, k: nat, b: nat)
    requires a <= k < b <= |file| && file[k] == LF
    ensures LineNumber(file, a) < LineNumber(file, b)
  {
    assert file[..k] == file[..a] + file[a..k];
    SplitNeverShrinks(file[..a], file[a..k]);
    assert file[..b] == file[..k] + [LF] + file[k + 1..b];
    SplitAppend(LF, file[..k], file[k + 1..b]);
  }

  /** The file that the writers of `entries` make. */
  function Ledger(entries: seq<Entry>, header: Bytes, events: seq<Event>): System {
    Run(Start(seq(|entries|, p requires 0 <= p < |entries| => Row(entries[p])), header), events)
  }

  lemma LedgerInv(entries: seq<Entry>, header: Bytes, events: seq<Event>)
    ensures var s := Ledger(entries, header, events);
            && Inv(s) && RowsAreLines(s.rows) && |s.rows| == |entries|
            && forall p {:trigger s.rows[p]} :: 0 <= p < |entries| ==>
                s.rows[p] == RowText(entries[p]) + [LF] && LF !in RowText(entries[p])
  {
    var rows := seq(|entries|, p requires 0 <= p < |entries| => Row(entries[p]));
    RunKeepsInv(rows, header, events);
    forall p | 0 <= p < |entries| ensures LF !in RowText(entries[p])
        && rows[p][..|rows[p]| - 1] == RowText(entries[p]) {
      RowRoundTrip(entries[p]);
    }
  }

  /** Where the row of write `i` begins. */
  function Offset(s: System, i: nat): nat
    requires i < |s.log| && LogInRange(s) && s.linked <= |s.header|
  {
    |Content(s, i)| + if s.log[i].closeLine then 1 else 0
  }

  /** At its offset the file has the row, on the line of which there is nothing before it
      exactly when the write starts a line. */
  ghost predicate RowStands(file: Bytes, offset: nat, text: Bytes, alone: bool) {
    && offset + |text| < |file| && file[offset..offset + |text| + 1] == text + [LF]
    && LineNumber(file, offset) < |Split(LF, file)|
    && Split(LF, file)[LineNumber(file, offset)] == Fragment(file[..offset]) + text
    && (Fragment(file[..offset]) == [] <==> alone)
  }

  /** The line at an offset splits on tabs into eight fields. */
  ghost predicate FieldsStand(file: Bytes, offset: nat, fields: seq<Bytes>) {
    && offset <= |file| && LineNumber(file, offset) < |Split(LF, file)|
    && |fields| == 8 && Split(TAB, Split(LF, file)[LineNumber(file, offset)]) == fields
  }

  lemma RowAtOffset(s: System, i: nat, text: Bytes)
    requires Inv(s) && RowsAreLines(s.rows) && s.file.Some? && i < |s.log| && Whole(s, s.log[i])
    requires s.rows[s.log[i].writer] == text + [LF] && LF !in text
    ensures RowStands(s.file.value, Offset(s, i), text, StartsLine(s, i))
  {
    var before := BeforeRow(s, i);
    var after := FileAroundRow(s, i);
    var file := s.file.value;
    assert file == before + (text + [LF]) + after;
    assert file[..|before|] == before && file[|before|..|before| + |text| + 1] == text + [LF];
    LineOfRow(before, text, after);
    FragmentIsEmptyIff(before);
  }

  /** With crashes and short writes anywhere, an acknowledged row stands where its write put
      it, on a line of its own if and only if its writer saw an unfinished line and closes it,
      or, of the writes between its look at the file and its own write that left anything in
      the file, the last one left the end of a line. Otherwise a torn fragment stands before
      the row on its line. On a line of its own it splits on tabs into its eight sanitised
      fields. */
  lemma AcknowledgedRowsAndTornWrites(entries: seq<Entry>, header: Bytes, events: seq<Event>, p: nat) returns (i: nat)
    requires var s := Ledger(entries, header, events); p < |s.phases| && s.phases[p].Acknowledged?
    ensures var s := Ledger(entries, header, events);
            && FileInv(s) && s.file.Some? && p < |entries|
            && i < |s.log| && s.log[i].seen <= i && s.log[i].writer == p && Whole(s, s.log[i])
            && RowStands(s.file.value, Offset(s, i), RowText(entries[p]),
                         s.log[i].closeLine || WindowEndsLine(s, s.log[i].seen, i))
            && (s.log[i].closeLine || WindowEndsLine(s, s.log[i].seen, i) ==>
                  FieldsStand(s.file.value, Offset(s, i), Sanitised(FieldsOf(entries[p]))))
            && (s.log[i].closeLine <==> !EndsLine(Content(s, s.log[i].seen)))
  {
    var s := Ledger(entries, header, events);
    LedgerInv(entries, header, events);
    AcknowledgedWroteOnce(s, p);
    i :| 0 <= i < |s.log| && s.log[i].writer == p && Whole(s, s.log[i]);
    assert s.rows[p] == RowText(entries[p]) + [LF];
    RowAtOffset(s, i, RowText(entries[p]));
    StartsLineIff(s, i);
    RowRoundTrip(entries[p]);
    assert [] + RowText(entries[p]) == RowText(entries[p]);
  }

  lemma LaterRowStartsAfter(s: System, i: nat, j: nat)
    requires LogInRange(s) && s.linked <= |s.header| && i < j < |s.log| && Whole(s, s.log[i])
    ensures Offset(s, i) + |s.rows[s.log[i].writer]| <= Offset(s, j)
  {
    ContentAfterRow(s, i);
    ContentGrows(s, i + 1, j);
  }

  lemma RowsApart(file: Bytes, a: nat, text: Bytes, b: nat, other: Bytes, alone: bool, otherAlone: bool)
    requires RowStands(file, a, text, alone) && RowStands(file, b, other, otherAlone) && a + |text| + 1 <= b
    ensures LineNumber(file, a) < LineNumber(file, b)
  {
    assert file[a..a + |text| + 1][|text|] == LF;
    LineNumberGrows(file, a, a + |text|, b);
  }

  /** Two complete rows are on different lines, also when they are the same text. */
  lemma RowsAreOnDifferentLines(entries: seq<Entry>, header: Bytes, events: seq<Event>, i: nat, j: nat)
    requires var s := Ledger(entries, header, events);
             i < j < |s.log| && FileInv(s) && s.file.Some? && Whole(s, s.log[i]) && Whole(s, s.log[j])
    ensures var s := Ledger(entries, header, events);
            && Offset(s, i) < Offset(s, j) <= |s.file.value|
            && LineNumber(s.file.value, Offset(s, i)) < LineNumber(s.file.value, Offset(s, j))
  {
    var s := Ledger(entries, header, events);
    LedgerInv(entries, header, events);
    var a, b := RowText(entries[s.log[i].writer]), RowText(entries[s.log[j].writer]);
    assert s.rows[s.log[i].writer] == a + [LF] && s.rows[s.log[j].writer] == b + [LF];
    RowAtOffset(s, i, a);
    RowAtOffset(s, j, b);
    LaterRowStartsAfter(s, i, j);
    RowsApart(s.file.value, Offset(s, i), a, Offset(s, j), b, StartsLine(s, i), StartsLine(s, j));
  }

  lemma RunOneMore(s: System, events: seq<Event>, event: Event)
    ensures Run(s, events + [event]) == Next(Run(s, events), event)
  {
    assert (events + [event])[..|events|] == events;
  }

  /** The window between looking at the file and writing is a real race: a torn
      write of another process inside it shares a line with an acknowledged row. */
  lemma TornWriteInWindowSharesLine(header: Bytes, r0: Bytes, r1: Bytes) returns (events: seq<Event>)
    requires IsLine(header) && IsLine(r0) && IsLine(r1) && |r1| > 1 && r1[0] != LF
    ensures var s := Run(Start([r0, r1], header), events);
            && FileInv(s) && |s.phases| == 2 && |s.log| == 2 && s.phases[0].Acknowledged?
            && s.log[1].writer == 0 && Whole(s, s.log[1]) && !StartsLine(s, 1) && s.log[1].seen == 0
                && !WindowEndsLine(s, 0, 1)
  {
    var s := Start([r0, r1], header);
    var setup := BothReady(header, r0, r1);
    var ready := Run(s, setup);
    RunOneMore(s, setup, Append(1, 1));
    var torn := Next(ready, Append(1, 1));
    assert torn.file.value == header + [r1[0]];
    RunOneMore(s, setup + [Append(1, 1)], Append(0, |r0|));
    var shared := Next(torn, Append(0, |r0|));
    RunOneMore(s, setup + [Append(1, 1)] + [Append(0, |r0|)], Acknowledge(0));
    events := setup + [Append(1, 1)] + [Append(0, |r0|)] + [Acknowledge(0)];
    RunKeepsInv([r0, r1], header, events);
    var end := Next(shared, Acknowledge(0));
    assert Piece(end, end.log[0]) == [r1[0]];
    assert Content(end, 1) == Content(end, 0) + [r1[0]];
    assert !Whole(end, end.log[0]);
  }

  lemma RunThen(s: System, events: seq<Event>, event: Event, t: System)
    requires Next(Run(s, events), event) == t
    ensures Run(s, events + [event]) == t
  {
    RunOneMore(s, events, event);
  }

  /** A writer that finds the file ending in a newline will not add one. */
  lemma MeasureAndRead(s: System, p: nat)
    requires p < |s.phases| == |s.rows| && s.phases[p].Opened? && s.log == []
    requires s.file.Some? && IsLine(s.file.value)
    ensures Next(Next(s, Measure(p)), ReadLast(p)) == Move(s, p, Ready(false, 0))
  {
    var t := Next(s, Measure(p));
    assert t == Move(s, p, Measured(|s.file.value|, 0));
    assert s.phases[p := Measured(|s.file.value|, 0)][p := Ready(false, 0)] == s.phases[p := Ready(false, 0)];
  }

  lemma BecomesReady(s: System, events: seq<Event>, p: nat) returns (more: seq<Event>)
    requires var t := Run(s, events);
             p < |t.phases| == |t.rows| && t.phases[p].Opened? && t.log == [] && t.file.Some? && IsLine(t.file.value)
    ensures Run(s, more) == Move(Run(s, events), p, Ready(false, 0))
  {
    var t := Run(s, events);
    MeasureAndRead(t, p);
    RunThen(s, events, Measure(p), Next(t, Measure(p)));
    more := events + [Measure(p)] + [ReadLast(p)];
    RunThen(s, events + [Measure(p)], ReadLast(p), Move(t, p, Ready(false, 0)));
  }

  lemma BothOpened(header: Bytes, r0: Bytes, r1: Bytes) returns (events: seq<Event>)
    requires IsLine(header)
    ensures Run(Start([r0, r1], header), events)
         == System([r0, r1], header, Some(header), [Opened, Opened], |header|, [])
  {
    var s, n := Start([r0, r1], header), |header|;
    assert s == System([r0, r1], header, None, [Starting, Starting], 0, []);
    var looked := System([r0, r1], header, None, [Linking, Starting], 0, []);
    var linked := System([r0, r1], header, Some(header), [Opened, Starting], n, []);
    assert header[..n] == header;
    RunThen(s, [], Look(0), looked);
    RunThen(s, [] + [Look(0)], Link(0, n), linked);
    events := [] + [Look(0)] + [Link(0, n)] + [Look(1)];
    RunThen(s, [] + [Look(0)] + [Link(0, n)], Look(1), System([r0, r1], header, Some(header), [Opened, Opened], n, []));
  }

  /** Two writers that both saw the file end in a newline. */
  lemma BothReady(header: Bytes, r0: Bytes, r1: Bytes) returns (events: seq<Event>)
    requires IsLine(header)
    ensures Run(Start([r0, r1], header), events)
         == System([r0, r1], header, Some(header), [Ready(false, 0), Ready(false, 0)], |header|, [])
  {
    var s := Start([r0, r1], header);
    events := BothOpened(header, r0, r1);
    events := BecomesReady(s, events, 0);
    events := BecomesReady(s, events, 1);
    assert [Opened, Opened][0 := Ready(false, 0)][1 := Ready(false, 0)] == [Ready(false, 0), Ready(false, 0)];
  }
}
