/** Batch reviews of commits: each finding of a verdict becomes one bead, and a
    call that fails partway can be repeated. */
module CommitBatch {
  import opened Options

  type Range = string
  type BeadId = string

  datatype Severity = Critical | High | Medium | Low

  datatype Finding = Finding(severity: Severity, title: string, summary: string, files: seq<string>, evidence: string)

  /** What reading the verdict file gives. */
  datatype VerdictRead =
    | Absent
    | ReadError
    | Malformed(reason: string, snippet: string)
    | Good(findings: seq<Finding>)

  /** What one `br create` gives; a failed one may or may not have made a bead. */
  datatype BrReply = Created(id: BeadId) | EmptyOutput | Failed

  datatype Outcome =
    | Pending
    | Filed(beadIds: seq<BeadId>)
    | MalformedFiled(beadIds: seq<BeadId>)
    | Threw

  /** The fields of the flywheel state that batch reviews use, as values. */
  datatype Snapshot = Snapshot(lastSha: Option<string>, pending: Option<seq<Range>>, recorded: Option<map<Range,
      seq<BeadId>>>)

  // ---- The operations on values ------------------------------------------------

  /** `range.split("..")[1]`: what lies between the first two double dots. */
  function EndSha(range: Range): Option<string> {
    if |range| < 2 then None
    else if range[..2] == ".." then Some(UpToDots(range[2..]))
    else EndSha(range[1..])
  }

  function UpToDots(s: string): string {
    if |s| < 2 then s
    else if s[..2] == ".." then ""
    else [s[0]] + UpToDots(s[1..])
  }

  function Dispatched(s: Snapshot, range: Range): Snapshot {
    var pending := if s.pending.Some? then s.pending.value else [];
    s.(lastSha := EndSha(range),
       pending := if range in pending then s.pending else Some(pending + [range]))
  }

  function Recorded(s: Snapshot, range: Range): seq<BeadId> {
    if s.recorded.Some? && range in s.recorded.value then s.recorded.value[range] else []
  }

  function WithRecord(s: Snapshot, range: Range, ids: seq<BeadId>): Snapshot {
    s.(recorded := Some((if s.recorded.Some? then s.recorded.value else map[])[range := ids]))
  }

  function Without(pending: seq<Range>, range: Range): seq<Range> {
    if pending == [] then []
    else (if pending[0] == range then [] else [pending[0]]) + Without(pending[1..], range)
  }

  function Settled(s: Snapshot, range: Range): Snapshot {
    if s.pending.None? then s else s.(pending := Some(Without(s.pending.value, range)))
  }

  /** The ids that `br` returns, up to the first call that fails; a script of
      replies that runs out counts as a failure. */
  function Accepted(replies: seq<BrReply>, wanted: nat): seq<BeadId> {
    if wanted == 0 || replies == [] || !replies[0].Created? || replies[0].id == "" then []
    else [replies[0].id] + Accepted(replies[1..], wanted - 1)
  }

  function ReReviewFinding(range: Range, reason: string, snippet: string): Finding {
    Finding(High, "Re-review commits " + range + " (batch-review verdict unreadable)",
            reason, [".pi-flywheel/batch-reviews/" + range + ".json"], snippet)
  }

  /** The findings a readable or malformed verdict stands for. */
  function FindingsOf(range: Range, read: VerdictRead): seq<Finding>
    requires read.Good? || read.Malformed?
  {
    match read
    case Good(findings) => findings
    case Malformed(reason, snippet) => [ReReviewFinding(range, reason, snippet)]
  }

  /** How many findings are left to file when `done` ids are recorded. */
  function Missing(total: nat, done: nat): nat {
    if done < total then total - done else 0
  }

  function AfterFiling(s: Snapshot, range: Range, findings: seq<Finding>, replies: seq<BrReply>): Snapshot {
    var old_ := Recorded(s, range);
    WithRecord(s, range, old_ + Accepted(replies, Missing(|findings|, |old_|)))
  }

  function Applied(s: Snapshot, range: Range, read: VerdictRead, replies: seq<BrReply>): (Snapshot, Outcome) {
    if read.Absent? then (s, Pending)
    else if read.ReadError? then (s, Threw)
    else
      var findings := FindingsOf(range, read);
      var t := AfterFiling(s, range, findings, replies);
      if |Recorded(t, range)| < |findings| then (t, Threw)
      else
        (Settled(t, range), if read.Good? then Filed(Recorded(t, range)) else MalformedFiled(Recorded(t, range)))
  }

  lemma {:induction false} AcceptedIsPrefix(replies: seq<BrReply>, wanted: nat)
    ensures |Accepted(replies, wanted)| <= wanted && |Accepted(replies, wanted)| <= |replies|
    ensures forall i :: 0 <= i < |Accepted(replies, wanted)| ==>
            replies[i] == Created(Accepted(replies, wanted)[i]) && Accepted(replies, wanted)[i] != ""
    ensures var n := |Accepted(replies, wanted)|;
            n < wanted ==> n == |replies| || !replies[n].Created? || replies[n].id == ""
  {
    if !(wanted == 0 || replies == [] || !replies[0].Created? || replies[0].id == "") {
      AcceptedIsPrefix(replies[1..], wanted - 1);
      forall i | 0 <= i < |Accepted(replies, wanted)|
        ensures replies[i] == Created(Accepted(replies, wanted)[i]) && Accepted(replies, wanted)[i] != ""
      {
        assert i > 0 ==> replies[i] == replies[1..][i - 1];
      }
    }
  }

  lemma {:induction false} UpToDotsWithoutDots(s: string)
    requires '.' !in s
    ensures UpToDots(s) == s
  {
    if |s| >= 2 {
      UpToDotsWithoutDots(s[1..]);
      assert s[..2][0] == s[0] && s == [s[0]] + s[1..];
    }
  }

  /** The next review counts from the end of a range `base..head`. */
  lemma {:induction false} EndShaOfRange(base: string, head: string)
    requires '.' !in base && '.' !in head
    ensures EndSha((base + ['.', '.']) + head) == Some(head)
  {
    var range := (base + ['.', '.']) + head;
    if base == [] {
      assert range[..2] == ['.', '.'] && range[2..] == head;
      UpToDotsWithoutDots(head);
    } else {
      EndShaOfRange(base[1..], head);
      assert range[..2][0] == base[0] && range[1..] == (base[1..] + ['.', '.']) + head;
    }
  }

  predicate DotsAt(s: string, i: nat) {
    i + 2 <= |s| && s[i] == '.' && s[i + 1] == '.'
  }

  lemma {:induction false} UpToDotsMeans(s: string)
    ensures UpToDots(s) <= s
    ensures forall i: nat | i < |UpToDots(s)| :: !DotsAt(s, i)
    ensures UpToDots(s) == s || DotsAt(s, |UpToDots(s)|)
  {
    if |s| >= 2 && !DotsAt(s, 0) {
      UpToDotsMeans(s[1..]);
      forall i: nat | i < |UpToDots(s)| ensures !DotsAt(s, i) {
        if i > 0 {
          assert !DotsAt(s[1..], i - 1);
        }
      }
    }
  }

  /** The first double dots stand at `i`. */
  ghost predicate FirstDotsAt(s: string, i: nat) {
    DotsAt(s, i) && forall k: nat | k < i :: !DotsAt(s, k)
  }

  lemma DotsBehind(s: string, i: nat)
    requires s != ""
    ensures DotsAt(s, i + 1) <==> DotsAt(s[1..], i)
  {
  }

  lemma {:induction false} EndShaAfter(range: Range, i: nat)
    requires FirstDotsAt(range, i)
    ensures EndSha(range) == Some(UpToDots(range[i + 2..]))
  {
    if i > 0 {
      assert !DotsAt(range, 0);
      forall k: nat | k < i ensures DotsAt(range, k + 1) <==> DotsAt(range[1..], k) {
        DotsBehind(range, k);
      }
      assert range[1..][i - 1 + 2..] == range[i + 2..];
      EndShaAfter(range[1..], i - 1);
    }
  }

  lemma {:induction false} NoEndSha(range: Range)
    requires forall i: nat :: !DotsAt(range, i)
    ensures EndSha(range).None?
  {
    if |range| >= 2 {
      assert !DotsAt(range, 0);
      forall i: nat ensures !DotsAt(range[1..], i) {
        DotsBehind(range, i);
        assert !DotsAt(range, i + 1);
      }
      NoEndSha(range[1..]);
    }
  }

  lemma {:induction false} FirstDots(s: string, i: nat) returns (first: nat)
    requires DotsAt(s, i)
    ensures FirstDotsAt(s, first)
  {
    first := i;
    if k: nat :| k < i && DotsAt(s, k) {
      first := FirstDots(s, k);
    }
  }

  /** The piece between the first double dots and the next ones, for every text whatsoever. */
  lemma EndShaIsSecondPiece(range: Range)
    ensures EndSha(range).None? <==> forall i: nat :: !DotsAt(range, i)
    ensures forall i: nat | FirstDotsAt(range, i) :: EndSha(range) == Some(UpToDots(range[i + 2..]))
  {
    if i: nat :| DotsAt(range, i) {
      var first := FirstDots(range, i);
      EndShaAfter(range, first);
    } else {
      NoEndSha(range);
    }
    forall i: nat | FirstDotsAt(range, i) ensures EndSha(range) == Some(UpToDots(range[i + 2..])) {
      EndShaAfter(range, i);
    }
  }

  predicate NoRepeats(pending: seq<Range>) {
    forall i, j :: 0 <= i < j < |pending| ==> pending[i] != pending[j]
  }

  function PendingOf(s: Snapshot): seq<Range> {
    if s.pending.Some? then s.pending.value else []
  }

  /** A dispatched range is pending, once however often it is dispatched, and no other
      range or recorded id is touched. */
  lemma DispatchIsPendingOnce(s: Snapshot, range: Range)
    requires NoRepeats(PendingOf(s))
    ensures NoRepeats(PendingOf(Dispatched(s, range))) && range in PendingOf(Dispatched(s, range))
    ensures forall other :: other != range ==> (other in PendingOf(Dispatched(s, range)) <==> other in PendingOf(s))
    ensures Dispatched(s, range).recorded == s.recorded
    ensures Dispatched(Dispatched(s, range), range) == Dispatched(s, range)
  {
  }

  lemma {:induction false} WithoutKeepsOthers(pending: seq<Range>, range: Range, other: Range)
    ensures other in Without(pending, range) <==> other in pending && other != range
  {
    if pending != [] {
      WithoutKeepsOthers(pending[1..], range, other);
      assert other in pending <==> other == pending[0] || other in pending[1..];
    }
  }

  lemma {:induction false} WithoutLast(pending: seq<Range>, range: Range)
    requires range !in pending
    ensures Without(pending, range) == pending && Without(pending + [range], range) == pending
  {
    if pending != [] {
      WithoutLast(pending[1..], range);
      assert (pending + [range])[1..] == pending[1..] + [range];
    } else {
      assert (pending + [range])[1..] == [];
    }
  }

  lemma {:induction false} WithoutKeepsApart(pending: seq<Range>, range: Range)
    requires NoRepeats(pending)
    ensures NoRepeats(Without(pending, range))
  {
    if pending != [] {
      WithoutKeepsApart(pending[1..], range);
      WithoutKeepsOthers(pending[1..], range, pending[0]);
    }
  }

  /** A settled range is no longer pending, the others are as before, and settling a range that
      has just been dispatched leaves exactly what was pending before the dispatch; the
      recorded ids stay, so that a late repetition finds them. */
  lemma SettleUndoesDispatch(s: Snapshot, range: Range)
    requires NoRepeats(PendingOf(s))
    ensures range !in PendingOf(Settled(s, range)) && NoRepeats(PendingOf(Settled(s, range)))
    ensures forall other :: other != range ==> (other in PendingOf(Settled(s, range)) <==> other in PendingOf(s))
    ensures range !in PendingOf(s) ==> PendingOf(Settled(Dispatched(s, range), range)) == PendingOf(s)
    ensures Settled(Dispatched(s, range), range).recorded == s.recorded
  {
    forall other ensures other in Without(PendingOf(s), range) <==> other in PendingOf(s) && other != range {
      WithoutKeepsOthers(PendingOf(s), range, other);
    }
    WithoutKeepsApart(PendingOf(s), range);
    if range !in PendingOf(s) {
      WithoutLast(PendingOf(s), range);
    }
  }

  /** What a call reports: an absent verdict is pending, one that cannot be read throws, and
      neither changes anything; otherwise it is filed exactly when there is an id for every
      finding, with all the ids, and the range is no longer pending; if not, it throws, and the
      range stays as it was. */
  lemma OutcomeMeans(s: Snapshot, range: Range, read: VerdictRead, replies: seq<BrReply>)
    ensures var (t, outcome) := Applied(s, range, read, replies);
            match read
            case Absent => t == s && outcome == Pending
            case ReadError => t == s && outcome == Threw
            case Good(findings) =>
              if |Recorded(t, range)| >= |findings|
              then outcome == Filed(Recorded(t, range)) && range !in PendingOf(t)
              else outcome == Threw && t.pending == s.pending
            case Malformed(_, _) =>
              if |Recorded(t, range)| >= 1
              then outcome == MalformedFiled(Recorded(t, range)) && range !in PendingOf(t)
              else outcome == Threw && t.pending == s.pending
    ensures Applied(s, range, read, replies).0.lastSha == s.lastSha
  {
    if read.Good? || read.Malformed? {
      WithoutKeepsOthers(PendingOf(s), range, range);
    }
  }

  /** A malformed verdict stands for one urgent finding, which names the range and the file, and
      shows the start of what could not be read. */
  lemma MalformedIsOneFinding(range: Range, reason: string, snippet: string)
    ensures var fs := FindingsOf(range, Malformed(reason, snippet));
            && |fs| == 1 && fs[0].severity == High && fs[0].summary == reason && fs[0].evidence == snippet
            && fs[0].files == [".pi-flywheel/batch-reviews/" + range + ".json"]
            && fs[0].title == "Re-review commits " + range + " (batch-review verdict unreadable)"
    ensures forall findings :: FindingsOf(range, Good(findings)) == findings
  {
  }

  /** After a dispatch of base..head the next review counts from head. */
  lemma DispatchMovesBaseline(s: Snapshot, base: string, head: string)
    requires '.' !in base && '.' !in head
    ensures Dispatched(s, (base + ['.', '.']) + head).lastSha == Some(head)
  {
    EndShaOfRange(base, head);
  }

  lemma RecordTwice(s: Snapshot, range: Range, first: seq<BeadId>, second: seq<BeadId>)
    ensures WithRecord(WithRecord(s, range, first), range, second) == WithRecord(s, range, second)
    ensures Recorded(WithRecord(s, range, first), range) == first
  {
    var m := if s.recorded.Some? then s.recorded.value else map[];
    assert m[range := first][range := second] == m[range := second];
  }

  // ---- The state the source mutates ----------------------------------------------

  /** The array of bead ids that the state and a running call share. */
  class IdList {
    var ids: seq<BeadId>

    constructor ()
      ensures ids == []
    {
      ids := [];
    }

    /** One `br create` per finding beyond the recorded ids, each id pushed as soon
        as it is known; `replies[k]` answers the k-th call. */
    method FileMissing(findings: seq<Finding>, replies: seq<BrReply>) returns (ok: bool, ghost calls: seq<Finding>)
      modifies this
      ensures ids == old(ids) + Accepted(replies, Missing(|findings|, |old(ids)|))
      ensures ok <==> |ids| >= |findings|
      ensures CallsFrom(calls, findings, |old(ids)|)
    {
      calls := [];
      var i, k := |ids|, 0;
      ghost var first, wanted, got: seq<BeadId> := ids, Missing(|findings|, |ids|), [];
      while i < |findings|
        invariant i == |ids| == |first| + k && k == |calls| == |got| && k <= |replies|
        invariant ids == first + got && Taken(replies, wanted, got)
        invariant CallsFrom(calls, findings, |first|)
      {
        NextCall(calls, findings, |first|);
        calls := calls + [findings[i]];
        if k == |replies| || !replies[k].Created? || replies[k].id == "" {
          TakingEnds(replies, wanted, got);
          ok := false;
          return;
        }
        TakeOne(replies, wanted, got);
        ids := ids + [replies[k].id];
        got := got + [replies[k].id];
        i, k := i + 1, k + 1;
      }
      TakingEnds(replies, wanted, got);
      ok := true;
    }
  }

  /** `got` is the start of the accepted ids. */
  ghost predicate Taken(replies: seq<BrReply>, wanted: nat, got: seq<BeadId>) {
    && |got| <= wanted && |got| <= |replies|
    && got + Accepted(replies[|got|..], wanted - |got|) == Accepted(replies, wanted)
  }

  lemma TakeOne(replies: seq<BrReply>, wanted: nat, got: seq<BeadId>)
    requires Taken(replies, wanted, got) && |got| < wanted && |got| < |replies|
    requires replies[|got|].Created? && replies[|got|].id != ""
    ensures Taken(replies, wanted, got + [replies[|got|].id])
  {
    var k, id := |got|, replies[|got|].id;
    assert replies[k..][1..] == replies[k + 1..];
    var rest := Accepted(replies[k + 1..], wanted - k - 1);
    assert Accepted(replies[k..], wanted - k) == [id] + rest;
    assert (got + [id]) + rest == got + ([id] + rest);
  }

  lemma TakingEnds(replies: seq<BrReply>, wanted: nat, got: seq<BeadId>)
    requires Taken(replies, wanted, got)
    requires |got| == wanted || |got| == |replies| || !replies[|got|].Created? || replies[|got|].id == ""
    ensures got == Accepted(replies, wanted)
  {
    assert got + [] == got;
  }

  /** The calls are for the findings from position `start` on, in order. */
  ghost predicate CallsFrom(calls: seq<Finding>, findings: seq<Finding>, start: nat) {
    if start < |findings| then start + |calls| <= |findings| && calls == findings[start..start + |calls|]
        else calls == []
  }

  lemma NextCall(calls: seq<Finding>, findings: seq<Finding>, start: nat)
    requires CallsFrom(calls, findings, start) && start + |calls| < |findings|
    ensures CallsFrom(calls + [findings[start + |calls|]], findings, start)
  {
  }

  class FlywheelState {
    var lastBatchReviewSha: Option<string>
    var pendingBatchReviews: Option<seq<Range>>
    var batchReviewSynthesizedBeads: Option<map<Range, IdList>>

    ghost function Lists(): set<IdList>
      reads this
    {
      if batchReviewSynthesizedBeads.None? then {}
      else set r | r in batchReviewSynthesizedBeads.value :: batchReviewSynthesizedBeads.value[r]
    }

    /** No two ranges share an array. */
    ghost predicate Valid()
      reads this
    {
      batchReviewSynthesizedBeads.Some? ==>
        var m := batchReviewSynthesizedBeads.value;
        forall a, b :: a in m && b in m && m[a] == m[b] ==> a == b
    }

    ghost function RecordedMap(): Option<map<Range, seq<BeadId>>>
      reads this, Lists()
    {
      if batchReviewSynthesizedBeads.None? then None
      else Some(map r | r in batchReviewSynthesizedBeads.value :: batchReviewSynthesizedBeads.value[r].ids)
    }

    ghost function View(): Snapshot
      reads this, Lists()
    {
      Snapshot(lastBatchReviewSha, pendingBatchReviews, RecordedMap())
    }

    method RecordBatchReviewDispatch(range: Range)
      requires Valid()
      modifies this
      ensures Valid() && View() == Dispatched(old(View()), range)
    {
      lastBatchReviewSha := EndSha(range);
      var pending := if pendingBatchReviews.Some? then pendingBatchReviews.value else [];
      if range !in pending {
        pendingBatchReviews := Some(pending + [range]);
      }
      if batchReviewSynthesizedBeads.Some? {
        assert RecordedMap().value == old(RecordedMap().value);
      }
    }

    /** Puts the array of `range` into the state and returns it. */
    method ListFor(range: Range) returns (filed: IdList)
      requires Valid()
      modifies this
      ensures Valid() && batchReviewSynthesizedBeads.Some? && range in batchReviewSynthesizedBeads.value
      ensures filed == batchReviewSynthesizedBeads.value[range]
      ensures fresh(Lists() - old(Lists())) && unchanged(old(Lists()))
      ensures View() == WithRecord(old(View()), range, Recorded(old(View()), range))
    {
      var m := if batchReviewSynthesizedBeads.Some? then batchReviewSynthesizedBeads.value else map[];
      if range in m {
        filed := m[range];
      } else {
        filed := new IdList();
      }
      batchReviewSynthesizedBeads := Some(m[range := filed]);
      ghost var before := old(View());
      assert RecordedMap().value == (if before.recorded.Some? then before.recorded.value
          else map[])[range := Recorded(before, range)];
    }

    /** Files the findings that have no bead yet. `calls` is what was handed to `br create`. */
    method FileFindingBeads(range: Range, findings: seq<Finding>, replies: seq<BrReply>)
      returns (ok: bool, beadIds: seq<BeadId>, ghost calls: seq<Finding>)
      requires Valid()
      modifies this, Lists()
      ensures Valid() && fresh(Lists() - old(Lists()))
      ensures View() == AfterFiling(old(View()), range, findings, replies)
      ensures ok <==> |Recorded(View(), range)| >= |findings|
      ensures ok ==> beadIds == Recorded(View(), range)
      ensures CallsFrom(calls, findings, |Recorded(old(View()), range)|)
    {
      var filed := ListFor(range);
      ghost var base, first := View(), filed.ids;
      ok, calls := filed.FileMissing(findings, replies);
      beadIds := filed.ids;
      FilingEnds(range, base, first, findings, replies);
      RecordTwice(old(View()), range, Recorded(base, range), first + Accepted(replies, Missing(|findings|, |first|)));
    }

    lemma FilingEnds(range: Range, base: Snapshot, first: seq<BeadId>, findings: seq<Finding>, replies: seq<BrReply>)
      requires batchReviewSynthesizedBeads.Some? && range in batchReviewSynthesizedBeads.value
      requires base.recorded.Some? && base.recorded.value.Keys == batchReviewSynthesizedBeads.value.Keys
      requires lastBatchReviewSha == base.lastSha && pendingBatchReviews == base.pending
      requires base.recorded.value[range] == first
      requires forall r :: r in batchReviewSynthesizedBeads.value && r != range ==>
                 batchReviewSynthesizedBeads.value[r].ids == base.recorded.value[r]
      requires batchReviewSynthesizedBeads.value[range].ids == first + Accepted(replies, Missing(|findings|, |first|))
      ensures View() == AfterFiling(base, range, findings, replies)
    {
      assert RecordedMap().value == base.recorded.value[range := first + Accepted(replies,
          Missing(|findings|, |first|))];
    }

    method Settle(range: Range)
      requires Valid()
      modifies this`pendingBatchReviews
      ensures Valid() && View() == Settled(old(View()), range)
    {
      if pendingBatchReviews.Some? {
        pendingBatchReviews := Some(Without(pendingBatchReviews.value, range));
      }
      if batchReviewSynthesizedBeads.Some? {
        assert RecordedMap().value == old(RecordedMap().value);
      }
    }

    /** Files the verdict's findings, or one re-review bead for a malformed one. */
    method ApplyBatchReviewVerdict(range: Range, read: VerdictRead, replies: seq<BrReply>)
      returns (outcome: Outcome, ghost calls: seq<Finding>)
      requires Valid()
      modifies this, Lists()
      ensures Valid() && fresh(Lists() - old(Lists()))
      ensures (View(), outcome) == Applied(old(View()), range, read, replies)
      ensures read.Good? || read.Malformed? ==>
              CallsFrom(calls, FindingsOf(range, read), |Recorded(old(View()), range)|)
      ensures read.Absent? || read.ReadError? ==> calls == []
    {
      calls := [];
      match read
      case Absent => outcome := Pending;
      case ReadError => outcome := Threw;
      case _ =>
        var ok, beadIds;
        ok, beadIds, calls := FileFindingBeads(range, FindingsOf(range, read), replies);
        if ok {
          Settle(range);
          outcome := if read.Good? then Filed(beadIds) else MalformedFiled(beadIds);
        } else {
          outcome := Threw;
        }
    }
  }

  // ---- Runs ----------------------------------------------------------------------

  datatype Op =
    | Dispatch(range: Range)
    | Apply(range: Range, read: VerdictRead, replies: seq<BrReply>)

  /** The successful `br create` calls of a run: the k-th finding of a range got this id. */
  datatype Filing = Filing(range: Range, index: nat, finding: Finding, id: BeadId)

  datatype Batch = Batch(state: Snapshot, filings: seq<Filing>)

  function NewFilings(range: Range, findings: seq<Finding>, start: nat, ids: seq<BeadId>): seq<Filing> {
    seq(|ids|, i requires 0 <= i < |ids| =>
      Filing(range, start + i, if start + i < |findings| then findings[start + i]
          else ReReviewFinding(range, "", ""), ids[i]))
  }

  function Step(b: Batch, op: Op): Batch {
    match op
    case Dispatch(range) => b.(state := Dispatched(b.state, range))
    case Apply(range, read, replies) =>
      var t := Applied(b.state, range, read, replies).0;
      var before := Recorded(b.state, range);
      Batch(t,
        if read.Good? || read.Malformed? then
          var findings := FindingsOf(range, read);
          b.filings + NewFilings(range, findings, |before|, Accepted(replies, Missing(|findings|, |before|)))
        else b.filings)
  }

  const NOTHING := Batch(Snapshot(None, None, None), [])

  function RunOps(ops: seq<Op>): Batch {
    if ops == [] then NOTHING else Step(RunOps(ops[..|ops| - 1]), ops[|ops| - 1])
  }

  /** The range of the last dispatch. */
  function LastDispatched(ops: seq<Op>): Option<Range> {
    if ops == [] then None
    else if ops[|ops| - 1].Dispatch? then Some(ops[|ops| - 1].range)
    else LastDispatched(ops[..|ops| - 1])
  }

  /** After any run the baseline is the end of the range that was dispatched last; nothing
      else moves it, and there is none before the first dispatch. */
  lemma {:induction false} BaselineIsLastDispatched(ops: seq<Op>)
    ensures var last := LastDispatched(ops);
            RunOps(ops).state.lastSha == if last.Some? then EndSha(last.value) else None
  {
    if ops != [] {
      var rest, op := ops[..|ops| - 1], ops[|ops| - 1];
      BaselineIsLastDispatched(rest);
      if op.Apply? {
        OutcomeMeans(RunOps(rest).state, op.range, op.read, op.replies);
      }
    }
  }

  /** So after the dispatch of base..head and any calls that apply verdicts it is head. */
  lemma {:induction false} BaselineStaysAtHead(ops: seq<Op>, base: string, head: string, more: seq<Op>)
    requires '.' !in base && '.' !in head
    requires forall k :: 0 <= k < |more| ==> more[k].Apply?
    ensures RunOps((ops + [Dispatch((base + ['.', '.']) + head)]) + more).state.lastSha == Some(head)
    decreases |more|
  {
    var range := (base + ['.', '.']) + head;
    var first := ops + [Dispatch(range)];
    if more == [] {
      assert first + more == first;
      BaselineIsLastDispatched(first);
      EndShaOfRange(base, head);
    } else {
      var most, op := more[..|more| - 1], more[|more| - 1];
      BaselineStaysAtHead(ops, base, head, most);
      assert (first + more)[..|first + more| - 1] == first + most && (first + more)[|first + more| - 1] == op;
      OutcomeMeans(RunOps(first + most).state, op.range, op.read, op.replies);
    }
  }

  /** The verdict of a range, once readable, is always the same. */
  ghost predicate SteadyVerdicts(ops: seq<Op>, verdicts: map<Range, VerdictRead>) {
    forall k :: 0 <= k < |ops| && ops[k].Apply? && (ops[k].read.Good? || ops[k].read.Malformed?) ==>
      ops[k].range in verdicts && verdicts[ops[k].range] == ops[k].read
  }

  /** The filings of one range, in the order they happened. */
  function FilingsOf(filings: seq<Filing>, range: Range): seq<Filing> {
    if filings == [] then []
    else
      var last := filings[|filings| - 1];
      FilingsOf(filings[..|filings| - 1], range) + (if last.range == range then [last] else [])
  }

  /** Ids and filings agree with the findings one by one. */
  ghost predicate AlignedLists(range: Range, findings: seq<Finding>, ids: seq<BeadId>, filed: seq<Filing>) {
    && |ids| == |filed| <= |findings|
    && forall i {:trigger filed[i]} :: 0 <= i < |ids| ==> filed[i] == Filing(range, i, findings[i], ids[i])
  }

  /** The recorded ids of a range are what br returned, one per finding in order. */
  ghost predicate Aligned(b: Batch, range: Range, read: VerdictRead) {
    && (read.Good? || read.Malformed?)
    && AlignedLists(range, FindingsOf(range, read), Recorded(b.state, range), FilingsOf(b.filings, range))
  }

  lemma {:induction false} FilingsOfAppend(a: seq<Filing>, b: seq<Filing>, range: Range)
    ensures FilingsOf(a + b, range) == FilingsOf(a, range) + FilingsOf(b, range)
  {
    if b == [] {
      assert a + b == a;
    } else {
      FilingsOfAppend(a, b[..|b| - 1], range);
      assert (a + b)[..|a + b| - 1] == a + b[..|b| - 1];
    }
  }

  lemma {:induction false} FilingsOfUniform(filings: seq<Filing>, owner: Range, range: Range)
    requires forall i :: 0 <= i < |filings| ==> filings[i].range == owner
    ensures FilingsOf(filings, range) == if owner == range then filings else []
  {
    if filings != [] {
      FilingsOfUniform(filings[..|filings| - 1], owner, range);
    }
  }

  predicate Readable(read: VerdictRead) {
    read.Good? || read.Malformed?
  }

  function IdsGained(b: Batch, range: Range, read: VerdictRead, replies: seq<BrReply>): seq<BeadId>
    requires Readable(read)
  {
    Accepted(replies, Missing(|FindingsOf(range, read)|, |Recorded(b.state, range)|))
  }

  function FilingsGained(b: Batch, range: Range, read: VerdictRead, replies: seq<BrReply>): seq<Filing>
    requires Readable(read)
  {
    NewFilings(range, FindingsOf(range, read), |Recorded(b.state, range)|, IdsGained(b, range, read, replies))
  }

  lemma ApplyRecords(b: Batch, range: Range, read: VerdictRead, replies: seq<BrReply>, other: Range)
    requires Readable(read)
    ensures Recorded(Step(b, Apply(range, read, replies)).state, other) ==
            Recorded(b.state, other) + if other == range then IdsGained(b, range, read, replies) else []
  {
    var t := AfterFiling(b.state, range, FindingsOf(range, read), replies);
    assert Step(b, Apply(range, read, replies)).state.recorded == t.recorded;
    assert Recorded(b.state, other) + [] == Recorded(b.state, other);
  }

  lemma ApplyFiles(b: Batch, range: Range, read: VerdictRead, replies: seq<BrReply>, other: Range)
    requires Readable(read)
    ensures FilingsOf(Step(b, Apply(range, read, replies)).filings, other) ==
            FilingsOf(b.filings, other) + if other == range then FilingsGained(b, range, read, replies) else []
  {
    var made := FilingsGained(b, range, read, replies);
    FilingsOfAppend(b.filings, made, other);
    FilingsOfUniform(made, range, other);
  }

  /** What one call to apply a verdict does to the ids and filings of each range. */
  lemma ApplyEffect(b: Batch, range: Range, read: VerdictRead, replies: seq<BrReply>, other: Range)
    requires Readable(read)
    ensures var after := Step(b, Apply(range, read, replies));
            if other == range then
              && Recorded(after.state, range) == Recorded(b.state, range) + IdsGained(b, range, read, replies)
              && FilingsOf(after.filings, range) == FilingsOf(b.filings, range) + FilingsGained(b, range, read, replies)
            else
              && Recorded(after.state, other) == Recorded(b.state, other)
              && FilingsOf(after.filings, other) == FilingsOf(b.filings, other)
  {
    ApplyRecords(b, range, read, replies, other);
    ApplyFiles(b, range, read, replies, other);
    assert other != range ==> Recorded(b.state, other) + [] == Recorded(b.state, other)
                              && FilingsOf(b.filings, other) + [] == FilingsOf(b.filings, other);
  }

  lemma AlignedGrows(range: Range, findings: seq<Finding>, ids: seq<BeadId>, filed: seq<Filing>, got: seq<BeadId>)
    requires AlignedLists(range, findings, ids, filed) && |ids| + |got| <= |findings|
    ensures AlignedLists(range, findings, ids + got, filed + NewFilings(range, findings, |ids|, got))
  {
  }

  lemma AlignedShrinks(range: Range, findings: seq<Finding>, ids: seq<BeadId>, filed: seq<Filing>, got: seq<BeadId>)
    requires |ids| == |filed|
    requires AlignedLists(range, findings, ids + got, filed + NewFilings(range, findings, |ids|, got))
    ensures AlignedLists(range, findings, ids, filed)
  {
    var all, allIds := filed + NewFilings(range, findings, |ids|, got), ids + got;
    forall i {:trigger filed[i]} | 0 <= i < |ids| ensures filed[i] == Filing(range, i, findings[i], ids[i]) {
      assert all[i] == Filing(range, i, findings[i], allIds[i]);
    }
  }

  /** Each recorded id is the answer of br to the filing of its own place. */
  ghost predicate InOrder(range: Range, ids: seq<BeadId>, filed: seq<Filing>) {
    && |ids| == |filed|
    && forall i {:trigger filed[i]} :: 0 <= i < |filed| ==>
        filed[i].range == range && filed[i].index == i && filed[i].id == ids[i]
  }

  lemma InOrderGrows(range: Range, findings: seq<Finding>, ids: seq<BeadId>, filed: seq<Filing>, got: seq<BeadId>)
    requires InOrder(range, ids, filed)
    ensures InOrder(range, ids + got, filed + NewFilings(range, findings, |ids|, got))
  {
  }

  /** After any run, whatever the verdicts said and wherever br failed, the recorded ids of a
      range are the answers of br in the order of the findings, and no place is filed twice. */
  lemma {:induction false} RunsKeepIdsInOrder(ops: seq<Op>, range: Range)
    ensures InOrder(range, Recorded(RunOps(ops).state, range), FilingsOf(RunOps(ops).filings, range))
  {
    if ops != [] {
      var rest, op := ops[..|ops| - 1], ops[|ops| - 1];
      RunsKeepIdsInOrder(rest, range);
      if op.Apply? && Readable(op.read) {
        var b := RunOps(rest);
        ApplyEffect(b, op.range, op.read, op.replies, range);
        if op.range == range {
          InOrderGrows(range, FindingsOf(range, op.read), Recorded(b.state, range), FilingsOf(b.filings, range),
              IdsGained(b, range, op.read, op.replies));
        }
      }
    }
  }

  /** A call leaves every recorded id with its own finding exactly when they agreed
      before the call, that is, unless the verdict of the range has changed. */
  lemma ApplyAlignsExactly(ops: seq<Op>, range: Range, read: VerdictRead, replies: seq<BrReply>)
    requires Readable(read)
    ensures Aligned(Step(RunOps(ops), Apply(range, read, replies)), range, read) <==> Aligned(RunOps(ops), range, read)
  {
    var b := RunOps(ops);
    RunsKeepIdsInOrder(ops, range);
    ApplyEffect(b, range, read, replies, range);
    var ids, filed, findings := Recorded(b.state, range), FilingsOf(b.filings, range), FindingsOf(range, read);
    AcceptedIsPrefix(replies, Missing(|findings|, |ids|));
    if Aligned(b, range, read) {
      AlignedGrows(range, findings, ids, filed, IdsGained(b, range, read, replies));
    }
    if Aligned(Step(b, Apply(range, read, replies)), range, read) {
      AlignedShrinks(range, findings, ids, filed, IdsGained(b, range, read, replies));
    }
  }

  /** The findings that one call filed stand at the same places in `findings`. */
  ghost predicate FiledFrom(findings: seq<Finding>, theirs: seq<Finding>, start: nat, got: nat) {
    forall i :: start <= i < start + got ==> i < |theirs| && i < |findings| && theirs[i] == findings[i]
  }

  /** Every call that filed something read, at those places, what `findings` has there. */
  ghost predicate FiledAlike(ops: seq<Op>, range: Range, findings: seq<Finding>) {
    ops == []
    || (var rest, op := ops[..|ops| - 1], ops[|ops| - 1];
        && FiledAlike(rest, range, findings)
        && (op.Apply? && op.range == range && Readable(op.read) ==>
              FiledFrom(findings, FindingsOf(range, op.read), |Recorded(RunOps(rest).state, range)|,
                        |IdsGained(RunOps(rest), range, op.read, op.replies)|)))
  }

  lemma AlignedStepIff(range: Range, findings: seq<Finding>, ids: seq<BeadId>, filed: seq<Filing>,
      theirs: seq<Finding>, got: seq<BeadId>)
    requires InOrder(range, ids, filed) && (got != [] ==> |ids| + |got| <= |theirs|)
    ensures AlignedLists(range, findings, ids + got, filed + NewFilings(range, theirs, |ids|, got)) <==>
            AlignedLists(range, findings, ids, filed) && FiledFrom(findings, theirs, |ids|, |got|)
  {
    var all, allIds := filed + NewFilings(range, theirs, |ids|, got), ids + got;
    if AlignedLists(range, findings, allIds, all) {
      forall i {:trigger filed[i]} | 0 <= i < |ids| ensures filed[i] == Filing(range, i, findings[i], ids[i]) {
        assert all[i] == Filing(range, i, findings[i], allIds[i]);
      }
      forall i | |ids| <= i < |allIds| ensures i < |theirs| && theirs[i] == findings[i] {
        assert all[i] == Filing(range, i, findings[i], allIds[i]);
      }
    }
    if AlignedLists(range, findings, ids, filed) && FiledFrom(findings, theirs, |ids|, |got|) {
      if got != [] {
        var last := theirs[|allIds| - 1];
        assert |allIds| - 1 < |findings|;
      }
      forall i {:trigger all[i]} | 0 <= i < |allIds| ensures i < |findings|
          && all[i] == Filing(range, i, findings[i], allIds[i]) {
        if i < |ids| {
          assert all[i] == filed[i];
        } else {
          assert theirs[i] == findings[i];
        }
      }
    }
  }

  /** After any run the recorded ids belong to the findings of a verdict one by one if and only
      if every call that filed something read what this verdict has at those places. */
  lemma {:induction false} AlignedIff(ops: seq<Op>, range: Range, read: VerdictRead)
    requires Readable(read)
    ensures Aligned(RunOps(ops), range, read) <==> FiledAlike(ops, range, FindingsOf(range, read))
  {
    if ops != [] {
      var rest, op := ops[..|ops| - 1], ops[|ops| - 1];
      AlignedIff(rest, range, read);
      if op.Apply? && Readable(op.read) {
        var b := RunOps(rest);
        ApplyEffect(b, op.range, op.read, op.replies, range);
        if op.range == range {
          RunsKeepIdsInOrder(rest, range);
          var theirs, ids := FindingsOf(range, op.read), Recorded(b.state, range);
          AcceptedIsPrefix(op.replies, Missing(|theirs|, |ids|));
          AlignedStepIff(range, FindingsOf(range, read), ids, FilingsOf(b.filings, range), theirs,
              IdsGained(b, range, op.read, op.replies));
        }
      }
    }
  }

  lemma {:induction false} SteadyIsAlike(ops: seq<Op>, verdicts: map<Range, VerdictRead>, range: Range)
    requires SteadyVerdicts(ops, verdicts) && range in verdicts && Readable(verdicts[range])
    ensures FiledAlike(ops, range, FindingsOf(range, verdicts[range]))
  {
    if ops != [] {
      var rest, op := ops[..|ops| - 1], ops[|ops| - 1];
      assert forall k :: 0 <= k < |rest| ==> rest[k] == ops[k];
      SteadyIsAlike(rest, verdicts, range);
      if op.Apply? && op.range == range && Readable(op.read) {
        assert verdicts[range] == op.read;
        AcceptedIsPrefix(op.replies, Missing(|FindingsOf(range, op.read)|, |Recorded(RunOps(rest).state, range)|));
      }
    }
  }

  /** In particular they do, after any run of dispatches and verdict calls in which
      `br create` may fail anywhere, while the verdict of the range does not change. */
  lemma RunsStayAligned(ops: seq<Op>, verdicts: map<Range, VerdictRead>, range: Range)
    requires SteadyVerdicts(ops, verdicts)
    requires range in verdicts && Readable(verdicts[range])
    ensures Aligned(RunOps(ops), range, verdicts[range])
  {
    SteadyIsAlike(ops, verdicts, range);
    AlignedIff(ops, range, verdicts[range]);
  }

  /** In any run a range stops being pending only by a call after which it has at least as many
      ids as the verdict has findings, each id the answer of br to the filing of its place;
      they are the beads of these findings if and only if they agreed before the call. */
  lemma LeavesPendingOnlyWhenFiled(ops: seq<Op>, op: Op, range: Range)
    requires range in PendingOf(RunOps(ops).state) && range !in PendingOf(RunOps(ops + [op]).state)
    ensures op.Apply? && op.range == range && Readable(op.read)
    ensures |Recorded(RunOps(ops + [op]).state, range)| >= |FindingsOf(range, op.read)|
    ensures InOrder(range, Recorded(RunOps(ops + [op]).state, range), FilingsOf(RunOps(ops + [op]).filings, range))
    ensures Aligned(RunOps(ops + [op]), range, op.read) <==> Aligned(RunOps(ops), range, op.read)
    ensures Aligned(RunOps(ops), range, op.read) ==>
            |Recorded(RunOps(ops + [op]).state, range)| == |FindingsOf(range, op.read)|
  {
    assert (ops + [op])[|ops|] == op && (ops + [op])[..|ops|] == ops;
    RunsKeepIdsInOrder(ops + [op], range);
    SettlesOnlyWhenFiled(RunOps(ops), op, range);
    AcceptedIsPrefix(op.replies, Missing(|FindingsOf(range, op.read)|, |Recorded(RunOps(ops).state, range)|));
    ApplyEffect(RunOps(ops), range, op.read, op.replies, range);
    ApplyAlignsExactly(ops, range, op.read, op.replies);
  }

  lemma SettlesOnlyWhenFiled(b: Batch, op: Op, range: Range)
    requires range in PendingOf(b.state) && range !in PendingOf(Step(b, op).state)
    ensures op.Apply? && op.range == range && Readable(op.read)
    ensures |Recorded(Step(b, op).state, range)| >= |FindingsOf(range, op.read)|
  {
    if op.Apply? && Readable(op.read) && b.state.pending.Some? {
      WithoutKeepsOthers(b.state.pending.value, op.range, range);
      ApplyRecords(b, op.range, op.read, op.replies, range);
    }
  }

  ghost predicate Finished(b: Batch, range: Range, read: VerdictRead)
    requires Readable(read)
  {
    |Recorded(b.state, range)| >= |FindingsOf(range, read)|
  }

  lemma {:induction false} FinishedStaysPut(ops: seq<Op>, more: seq<Op>, range: Range, read: VerdictRead)
    requires Readable(read) && Finished(RunOps(ops), range, read)
    requires forall k :: 0 <= k < |more| && more[k].Apply? && more[k].range == range && Readable(more[k].read) ==>
               more[k].read == read
    ensures Recorded(RunOps(ops + more).state, range) == Recorded(RunOps(ops).state, range)
    ensures FilingsOf(RunOps(ops + more).filings, range) == FilingsOf(RunOps(ops).filings, range)
  {
    if more == [] {
      assert ops + more == ops;
    } else {
      var rest, op := more[..|more| - 1], more[|more| - 1];
      FinishedStaysPut(ops, rest, range, read);
      assert (ops + more)[..|ops + more| - 1] == ops + rest && (ops + more)[|ops + more| - 1] == op;
      if op.Apply? && Readable(op.read) {
        ApplyEffect(RunOps(ops + rest), op.range, op.read, op.replies, range);
      }
    }
  }

  /** Once a call has settled a range, a repetition after any other calls hands
      nothing to br, whatever br would reply, and returns the same ids. */
  lemma ReapplyCreatesNothing(ops: seq<Op>, more: seq<Op>, range: Range, read: VerdictRead, replies: seq<BrReply>)
    requires Readable(read) && Finished(RunOps(ops), range, read)
    requires forall k :: 0 <= k < |more| && more[k].Apply? && more[k].range == range && Readable(more[k].read) ==>
               more[k].read == read
    ensures var b := RunOps(ops + more);
            var ids := Recorded(RunOps(ops).state, range);
            && Step(b, Apply(range, read, replies)).filings == b.filings
            && Applied(b.state, range, read, replies).1 == (if read.Good? then Filed(ids) else MalformedFiled(ids))
            && (forall calls :: CallsFrom(calls, FindingsOf(range, read), |Recorded(b.state, range)|) ==> calls == [])
  {
    FinishedStaysPut(ops, more, range, read);
    var b := RunOps(ops + more);
    ApplyEffect(b, range, read, replies, range);
    assert b.filings + [] == b.filings;
  }

  /** When the single id of a range is recorded, a verdict with a single finding files nothing. */
  lemma OneRecordedIdFillsOneFinding(b: Batch, range: Range, finding: Finding, id: BeadId)
    requires Recorded(b.state, range) == [id]
    ensures Applied(b.state, range, Good([finding]), []).1 == Filed([id])
    ensures Step(b, Apply(range, Good([finding]), [])).filings == b.filings
  {
    ApplyRecords(b, range, Good([finding]), [], range);
    assert FilingsGained(b, range, Good([finding]), []) == [];
    assert b.filings + [] == b.filings;
  }

  /** A verdict that is first unreadable and later repaired: its first finding never
      gets a bead, because the re-review bead has taken its place. */
  lemma RepairedVerdictLosesFirstFinding(b: Batch, range: Range, reason: string, snippet: string, finding: Finding,
      id: BeadId)
    requires Recorded(b.state, range) == [] && id != ""
    ensures var next := Step(b, Apply(range, Malformed(reason, snippet), [Created(id)]));
            && next.filings == b.filings + [Filing(range, 0, ReReviewFinding(range, reason, snippet), id)]
            && Applied(next.state, range, Good([finding]), []).1 == Filed([id])
            && Step(next, Apply(range, Good([finding]), [])).filings == next.filings
  {
    var read, replies := Malformed(reason, snippet), [Created(id)];
    assert Accepted(replies, 1) == [id] + Accepted([], 0);
    ApplyRecords(b, range, read, replies, range);
    assert FilingsGained(b, range, read, replies) == [Filing(range, 0, ReReviewFinding(range, reason, snippet), id)];
    OneRecordedIdFillsOneFinding(Step(b, Apply(range, read, replies)), range, finding, id);
  }
}
