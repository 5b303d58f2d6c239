/** File reservations: taking them from a server that may grant and refuse in one
    reply, and giving back what a failed attempt was granted. */
module Reservations {
  import opened Options
  import opened Selections

  /** An `id` field as the reply carries it. */
  datatype RawId = NumberId(value: real) | InfiniteId | TextId(text: string) | OtherId

  /** An id as a release request carries it. */
  datatype Wire = Number(value: real) | Text(text: string) | NullWire

  /** A granted reservation: the id reported, and the id by which the server knows it. */
  datatype Grant = Grant(path: string, reported: RawId, held: Wire)

  datatype Conflict = Conflict(path: string)

  /** The answer to a reserve request. A refused call may have been carried out all the
      same, and either list may be missing from an answer. */
  datatype ReserveReply =
    | Refused(error: string, carriedOut: seq<Grant>)
    | Answered(granted: Option<seq<Grant>>, conflicts: Option<seq<Conflict>>)

  datatype ReleaseReply =
    | ReleaseDone(count: Option<nat>)
    | ReleaseRefused(error: string, carriedOut: bool)

  /** The server's side of one attempt. */
  datatype Exchange = Exchange(reserve: ReserveReply, release: ReleaseReply)

  datatype ReserveResult =
    | Reserved(ids: seq<RawId>, granted: seq<Grant>, attempts: nat)
    | NotReserved(reason: Reason, conflicts: seq<Conflict>, attempts: nat)

  datatype Reason = Conflicts | RpcError(error: string) | EmptyResponse | InvalidArgs

  datatype ReleaseResult = Released(count: nat) | NotReleased(error: string)

  // ---- Ids -----------------------------------------------------------------------

  function Ids(granted: seq<Grant>): seq<RawId> {
    if granted == [] then []
    else Ids(granted[..|granted| - 1]) + IdOf(granted[|granted| - 1])
  }

  function IdOf(g: Grant): seq<RawId> {
    if g.reported.OtherId? then [] else [g.reported]
  }

  predicate AllDigits(s: string) {
    s != [] && forall i :: 0 <= i < |s| ==> '0' <= s[i] <= '9'
  }

  function DigitsValue(s: string): nat
    requires forall i :: 0 <= i < |s| ==> '0' <= s[i] <= '9'
  {
    if s == [] then 0 else 10 * DigitsValue(s[..|s| - 1]) + (s[|s| - 1] - '0') as nat
  }

  /** The number that stands for another one, if it is not too large for any. */
  type Rounding = real -> Option<real>

  /** The form in which an id is sent; `double` rounds what digits spell to a number. Ids without a form are skipped. */
  function WireOf(double: Rounding, id: RawId): Option<Wire> {
    match id
    case NumberId(value) => Some(Number(value))
    case TextId(text) =>
      if AllDigits(text) then
        var value := double(DigitsValue(text) as real);
        Some(if value.Some? then Number(value.value) else NullWire)
      else if text != "" then Some(Text(text))
      else None
    case _ => None
  }

  function Wires(double: Rounding, ids: seq<RawId>): seq<Wire> {
    if ids == [] then []
    else
      var last := WireOf(double, ids[|ids| - 1]);
      Wires(double, ids[..|ids| - 1]) + if last.Some? then [last.value] else []
  }

  lemma WiresAdd(double: Rounding, ids: seq<RawId>, id: RawId, w: Wire)
    ensures w in Wires(double, ids + [id]) <==> w in Wires(double, ids) || WireOf(double, id) == Some(w)
  {
    var more := ids + [id];
    assert more[..|more| - 1] == ids;
  }

  predicate Sends(double: Rounding, granted: seq<Grant>, w: Wire) {
    exists i {:trigger granted[i]} :: 0 <= i < |granted| && WireOf(double, granted[i].reported) == Some(w)
  }

  lemma SendsAdd(double: Rounding, granted: seq<Grant>, g: Grant, w: Wire)
    ensures Sends(double, granted + [g], w) <==> Sends(double, granted, w) || WireOf(double, g.reported) == Some(w)
  {
    var more := granted + [g];
    assert more[|granted|] == g;
    assert forall i {:trigger granted[i]} {:trigger more[i]} :: 0 <= i < |granted| ==> more[i] == granted[i];
  }

  lemma {:induction false} WiresAreSent(double: Rounding, granted: seq<Grant>, w: Wire)
    ensures w in Wires(double, Ids(granted)) <==> Sends(double, granted, w)
  {
    if granted != [] {
      var shorter, last := granted[..|granted| - 1], granted[|granted| - 1];
      WiresAreSent(double, shorter, w);
      assert shorter + [last] == granted;
      SendsAdd(double, shorter, last, w);
      if last.reported.OtherId? {
        assert Ids(granted) == Ids(shorter);
      } else {
        WiresAdd(double, Ids(shorter), last.reported, w);
      }
    }
  }

  /** The ids are those of the grants that have one, one each and in their order. */
  ghost predicate IdsOfGrants(granted: seq<Grant>, ids: seq<RawId>, at: seq<nat>) {
    && Chosen(at, |granted|) && |at| == |ids|
    && (forall j {:trigger at[j]} :: 0 <= j < |at| ==> ids[j] == granted[at[j]].reported && !ids[j].OtherId?)
    && (forall i {:trigger granted[i]} :: 0 <= i < |granted| && !granted[i].reported.OtherId? ==> i in at)
  }

  lemma {:induction false} IdsAreOfGrants(granted: seq<Grant>) returns (at: seq<nat>)
    ensures IdsOfGrants(granted, Ids(granted), at)
  {
    at := [];
    if granted != [] {
      var front, last := granted[..|granted| - 1], granted[|granted| - 1];
      var before := IdsAreOfGrants(front);
      ChooseNext(before, |front|);
      at := if last.reported.OtherId? then before else before + [|front|];
      forall i | 0 <= i < |granted| && !granted[i].reported.OtherId? ensures i in at {
        assert i < |front| ==> granted[i] == front[i] && i in before;
        StaysChosen(before, |front|, i);
      }
      forall j | 0 <= j < |at| ensures Ids(granted)[j] == granted[at[j]].reported && !Ids(granted)[j].OtherId? {
        assert j < |before| ==> Ids(front)[j] == front[before[j]].reported;
      }
    }
  }

  /** What is sent are the forms of the ids that have one, one each and in their order. */
  ghost predicate FormsOfIds(double: Rounding, ids: seq<RawId>, wires: seq<Wire>, at: seq<nat>) {
    && Chosen(at, |ids|) && |at| == |wires|
    && (forall j {:trigger at[j]} :: 0 <= j < |at| ==> WireOf(double, ids[at[j]]) == Some(wires[j]))
    && (forall i {:trigger ids[i]} :: 0 <= i < |ids| && WireOf(double, ids[i]).Some? ==> i in at)
  }

  lemma {:induction false} WiresAreForms(double: Rounding, ids: seq<RawId>) returns (at: seq<nat>)
    ensures FormsOfIds(double, ids, Wires(double, ids), at)
  {
    at := [];
    if ids != [] {
      var front, last := ids[..|ids| - 1], ids[|ids| - 1];
      var before := WiresAreForms(double, front);
      ChooseNext(before, |front|);
      at := if WireOf(double, last).None? then before else before + [|front|];
      forall i | 0 <= i < |ids| && WireOf(double, ids[i]).Some? ensures i in at {
        assert i < |front| ==> ids[i] == front[i] && i in before;
        StaysChosen(before, |front|, i);
      }
      forall j | 0 <= j < |at| ensures WireOf(double, ids[at[j]]) == Some(Wires(double, ids)[j]) {
        assert j < |before| ==> WireOf(double, front[before[j]]) == Some(Wires(double, front)[j]);
      }
    }
  }

  /** The decimal digits of a number. */
  function Decimal(n: nat): string {
    if n < 10 then [DIGITS[n]] else Decimal(n / 10) + [DIGITS[n % 10]]
  }

  const DIGITS: string := "0123456789"

  /** A number that is written in decimal is read as itself. */
  lemma {:induction false} DecimalReadsBack(n: nat)
    ensures AllDigits(Decimal(n)) && DigitsValue(Decimal(n)) == n
  {
    if n >= 10 {
      DecimalReadsBack(n / 10);
      assert Decimal(n)[..|Decimal(n)| - 1] == Decimal(n / 10);
    } else {
      assert DigitsValue([]) == 0 && [DIGITS[n]][..0] == [];
    }
  }

  /** In which form an id is sent, by its kind. */
  lemma FormsById(double: Rounding, n: nat, text: string)
    ensures double(n as real).Some? ==> WireOf(double, TextId(Decimal(n))) == Some(Number(double(n as real).value))
    ensures double(n as real).None? ==> WireOf(double, TextId(Decimal(n))) == Some(NullWire)
    ensures WireOf(double, NumberId(n as real)) == Some(Number(n as real))
    ensures WireOf(double, InfiniteId).None? && WireOf(double, OtherId).None? && WireOf(double, TextId("")).None?
    ensures text != "" && (exists i :: 0 <= i < |text| && !('0' <= text[i] <= '9')) ==>
            WireOf(double, TextId(text)) == Some(Text(text))
  {
    DecimalReadsBack(n);
  }

  // ---- One attempt ---------------------------------------------------------------

  datatype Kind = KindOk | KindConflict | KindRpcError | KindEmpty

  function GrantedOf(r: ReserveReply): seq<Grant> {
    if r.Answered? && r.granted.Some? then r.granted.value else []
  }

  function ConflictsOf(r: ReserveReply): seq<Conflict> {
    if r.Answered? && r.conflicts.Some? then r.conflicts.value else []
  }

  function KindOf(r: ReserveReply): Kind {
    if r.Refused? then KindRpcError
    else if ConflictsOf(r) != [] then KindConflict
    else if GrantedOf(r) == [] then KindEmpty
    else KindOk
  }

  /** The reservations that exist on the server because of a reply. */
  function Made(r: ReserveReply): seq<Grant> {
    if r.Refused? then r.carriedOut else GrantedOf(r)
  }

  function HeldBy(grants: seq<Grant>): set<Wire> {
    set g | g in grants :: g.held
  }

  function AfterRelease(double: Rounding, holdings: set<Wire>, ids: seq<RawId>, reply: ReleaseReply): set<Wire> {
    var wires := Wires(double, ids);
    if wires == [] || (reply.ReleaseRefused? && !reply.carriedOut) then holdings
    else holdings - (set w | w in wires)
  }

  function AfterAttempt(double: Rounding, holdings: set<Wire>, x: Exchange): set<Wire> {
    var more := holdings + HeldBy(Made(x.reserve));
    if KindOf(x.reserve).KindConflict? then AfterRelease(double, more, Ids(GrantedOf(x.reserve)), x.release) else more
  }

  // ---- The helper ------------------------------------------------------------------

  function ReleaseVerdict(double: Rounding, ids: seq<RawId>, reply: ReleaseReply): ReleaseResult {
    var wires := Wires(double, ids);
    if wires == [] then Released(0)
    else match reply
         case ReleaseRefused(error, _) => NotReleased(error)
         case ReleaseDone(count) => Released(if count.Some? then count.value else |wires|)
  }

  function Verdict(r: ReserveReply, attempts: nat): ReserveResult {
    match KindOf(r)
    case KindOk => Reserved(Ids(GrantedOf(r)), GrantedOf(r), attempts)
    case KindRpcError => NotReserved(RpcError(r.error), [], attempts)
    case KindEmpty => NotReserved(EmptyResponse, [], attempts)
    case KindConflict => NotReserved(Conflicts, ConflictsOf(r), attempts)
  }

  /** What the last reply says decides the result, and nothing else. */
  ghost predicate Answers(r: ReserveReply, attempts: nat, result: ReserveResult) {
    match r
    case Refused(error, _) => result == NotReserved(RpcError(error), [], attempts)
    case Answered(granted, conflicts) =>
      if conflicts.GetOr([]) != [] then result == NotReserved(Conflicts, conflicts.value, attempts)
      else if granted.GetOr([]) == [] then result == NotReserved(EmptyResponse, [], attempts)
      else
        && result.Reserved? && result.granted == granted.value && result.attempts == attempts
        && exists at :: IdsOfGrants(granted.value, result.ids, at)
  }

  lemma VerdictAnswers(r: ReserveReply, attempts: nat)
    ensures Answers(r, attempts, Verdict(r, attempts))
  {
    var at := IdsAreOfGrants(GrantedOf(r));
  }

  /** What a release reports: nothing to send, the server's refusal, its count, or else how
      many ids were sent. */
  lemma ReleaseReports(double: Rounding, ids: seq<RawId>, reply: ReleaseReply) returns (at: seq<nat>)
    ensures FormsOfIds(double, ids, Wires(double, ids), at)
    ensures ReleaseVerdict(double, ids, reply) ==
            if at == [] then Released(0)
            else if reply.ReleaseRefused? then NotReleased(reply.error)
            else Released(reply.count.GetOr(|at|))
  {
    at := WiresAreForms(double, ids);
  }

  /** Only a conflict is followed by another attempt, and there are at most two. */
  function LastAttempt(script: seq<Exchange>): nat
    requires |script| == 2
  {
    if KindOf(script[0].reserve).KindConflict? then 1 else 0
  }

  function Holdings(double: Rounding, holdings: set<Wire>, script: seq<Exchange>, attempts: nat): set<Wire>
    requires attempts <= |script|
  {
    if attempts == 0 then holdings
    else AfterAttempt(double, Holdings(double, holdings, script, attempts - 1), script[attempts - 1])
  }

  /** What an agent holds on the server, and its calls. */
  class Agent {
    const double: Rounding
    var holdings: set<Wire>

    method ExtractIds(granted: seq<Grant>) returns (ids: seq<RawId>)
      ensures ids == Ids(granted)
    {
      ids := [];
      for i := 0 to |granted|
        invariant ids == Ids(granted[..i])
      {
        assert granted[..i + 1][..i] == granted[..i];
        if !granted[i].reported.OtherId? {
          ids := ids + [granted[i].reported];
        }
      }
      assert granted[..|granted|] == granted;
    }

    method ReleaseReservations(ids: seq<RawId>, reply: ReleaseReply) returns (result: ReleaseResult)
      modifies this
      ensures result == ReleaseVerdict(double, ids, reply)
      ensures holdings == AfterRelease(double, old(holdings), ids, reply)
    {
      var wires := [];
      for i := 0 to |ids|
        invariant wires == Wires(double, ids[..i])
      {
        assert ids[..i + 1][..i] == ids[..i];
        var wire := WireOf(double, ids[i]);
        if wire.Some? {
          wires := wires + [wire.value];
        }
      }
      assert ids[..|ids|] == ids;
      if wires == [] { return Released(0); }
      if reply.ReleaseDone? || reply.carriedOut {
        holdings := holdings - set w | w in wires;
      }
      if reply.ReleaseRefused? { return NotReleased(reply.error); }
      return Released(if reply.count.Some? then reply.count.value else |wires|);
    }

    /** The server makes the reservations of its reply. */
    method AttemptReserve(reply: ReserveReply) returns (kind: Kind)
      modifies this
      ensures holdings == old(holdings) + HeldBy(Made(reply)) && kind == KindOf(reply)
    {
      holdings := holdings + HeldBy(Made(reply));
      if reply.Refused? { return KindRpcError; }
      if ConflictsOf(reply) != [] { return KindConflict; }
      if GrantedOf(reply) == [] { return KindEmpty; }
      return KindOk;
    }

    /** `script` is what the server does in each attempt; `calls` counts the reserve requests. */
    method ReserveOrFail(paths: seq<string>, script: seq<Exchange>) returns (result: ReserveResult, ghost calls: nat)
      requires |script| == 2
      modifies this
      ensures paths == [] ==> calls == 0 && result == NotReserved(InvalidArgs, [], 0) && holdings == old(holdings)
      ensures paths != [] ==> calls == LastAttempt(script) + 1 && Answers(script[calls - 1].reserve, calls, result)
      ensures paths != [] ==> result == Verdict(script[calls - 1].reserve, calls)
      ensures paths != [] ==> holdings == Holdings(double, old(holdings), script, calls)
    {
      if paths == [] { return NotReserved(InvalidArgs, [], 0), 0; }
      result, calls := TryTwice(script);
      VerdictAnswers(script[calls - 1].reserve, calls);
    }

    /** The loop over the attempts. */
    method TryTwice(script: seq<Exchange>) returns (result: ReserveResult, ghost calls: nat)
      requires |script| == 2
      modifies this
      ensures calls == LastAttempt(script) + 1 && result == Verdict(script[calls - 1].reserve, calls)
      ensures holdings == Holdings(double, old(holdings), script, calls)
    {
      calls := 0;
      var attempts := 0;
      var last := script[0].reserve;
      for i := 0 to 2
        invariant attempts == i == calls
        invariant i > 0 ==> last == script[i - 1].reserve && KindOf(last).KindConflict?
        invariant i > 1 ==> KindOf(script[0].reserve).KindConflict?
        invariant holdings == Holdings(double, old(holdings), script, i)
      {
        attempts := attempts + 1;
        last := script[i].reserve;
        calls := calls + 1;
        var kind := AttemptReserve(last);
        match kind
        case KindOk =>
          var ids := ExtractIds(GrantedOf(last));
          return Reserved(ids, GrantedOf(last), attempts), calls;
        case KindRpcError => return NotReserved(RpcError(last.error), [], attempts), calls;
        case KindEmpty => return NotReserved(EmptyResponse, [], attempts), calls;
        case KindConflict =>
          var spurious := ExtractIds(GrantedOf(last));
          if spurious != [] {
            var _ := ReleaseReservations(spurious, script[i].release);
          }
      }
      return NotReserved(Conflicts, ConflictsOf(last), attempts), calls;
    }
  }

  // ---- What the agent is left holding ------------------------------------------------

  predicate HeldApart(grants: seq<Grant>) {
    forall i, j {:trigger grants[i], grants[j]} :: 0 <= i < j < |grants| ==> grants[i].held != grants[j].held
  }

  /** What stands for a number stands for itself. */
  ghost predicate IsRounding(double: Rounding) {
    forall x {:trigger double(x)} :: double(x).Some? ==> double(double(x).value) == double(x)
  }

  /** The reply names a reservation by the id under which the server knows it: a number by
      that number, rounded as reading the reply rounds it, and a text by the text or by the
      number that it spells. What else stands in an id field says nothing. */
  predicate ReportsOwnId(double: Rounding, g: Grant) {
    match g.reported
    case NumberId(value) => g.held.Number? && double(g.held.value) == Some(value)
    case TextId(text) => g.held == Text(text) || (AllDigits(text) && g.held == Number(DigitsValue(text) as real))
    case _ => true
  }

  /** New reservations have ids of their own, which the agent does not hold yet and which
      the reply reports. */
  ghost predicate HonestReply(double: Rounding, holdings: set<Wire>, r: ReserveReply) {
    && HeldApart(Made(r))
    && forall i {:trigger Made(r)[i]} :: 0 <= i < |Made(r)| ==>
        Made(r)[i].held !in holdings && ReportsOwnId(double, Made(r)[i])
  }

  ghost predicate HonestServer(double: Rounding, holdings: set<Wire>, script: seq<Exchange>)
    requires |script| == 2
  {
    && HonestReply(double, holdings, script[0].reserve)
    && HonestReply(double, AfterAttempt(double, holdings, script[0]), script[1].reserve)
  }

  predicate CarriedOut(reply: ReleaseReply) {
    reply.ReleaseDone? || reply.carriedOut
  }

  /** What is sent back for the reported id is the id that the server knows. */
  predicate SentAsItself(double: Rounding, g: Grant) {
    WireOf(double, g.reported) == Some(g.held)
  }

  /** A grant beside a conflict whose own id is sent back in a release that is carried out. */
  predicate Undone(double: Rounding, x: Exchange, g: Grant) {
    KindOf(x.reserve).KindConflict? && CarriedOut(x.release) && SentAsItself(double, g)
  }

  /** Nothing was granted that is not taken back at once. */
  predicate LeavesNothing(double: Rounding, x: Exchange) {
    forall i {:trigger Made(x.reserve)[i]} :: 0 <= i < |Made(x.reserve)| ==> Undone(double, x, Made(x.reserve)[i])
  }

  /** Which ids are sent back as themselves can be read off their form: the numbers that stand
      for themselves, reported as numbers or as digits, and the texts that are neither empty
      nor digits. */
  lemma SentAsItselfIff(double: Rounding, g: Grant)
    requires IsRounding(double) && ReportsOwnId(double, g) && (g.reported.NumberId? || g.reported.TextId?)
    ensures SentAsItself(double, g) <==>
            if g.held.Number? then double(g.held.value) == Some(g.held.value)
            else g.held.Text? && g.held.text != "" && !AllDigits(g.held.text)
  {
  }

  /** No honest reply makes the agent send these: a text of digits becomes a number or nothing,
      and a number that is rounded to another one is never what is sent. */
  predicate NeverSent(double: Rounding, w: Wire) {
    (w.Text? && AllDigits(w.text)) || (w.Number? && double(w.value) != Some(w.value))
  }

  lemma NeverSentIsNot(double: Rounding, granted: seq<Grant>, w: Wire)
    requires IsRounding(double) && NeverSent(double, w)
    requires forall i {:trigger granted[i]} :: 0 <= i < |granted| ==> ReportsOwnId(double, granted[i])
    ensures !Sends(double, granted, w)
  {
  }

  /** A grant that is sent as something else is never sent as itself, by any grant. */
  lemma StraysAreNeverSent(double: Rounding, g: Grant)
    requires IsRounding(double) && ReportsOwnId(double, g) && WireOf(double, g.reported).Some?
             && !SentAsItself(double, g)
    ensures NeverSent(double, g.held)
  {
  }

  lemma HeldMember(grants: seq<Grant>, w: Wire)
    ensures w in HeldBy(grants) <==> exists i :: 0 <= i < |grants| && grants[i].held == w
  {
    if w in HeldBy(grants) {
      var g :| g in grants && g.held == w;
      var i :| 0 <= i < |grants| && grants[i] == g;
    }
  }

  lemma ReleaseMember(double: Rounding, holdings: set<Wire>, grants: seq<Grant>, reply: ReleaseReply, w: Wire)
    ensures w in AfterRelease(double, holdings, Ids(grants), reply) <==>
            w in holdings && !(CarriedOut(reply) && Sends(double, grants, w))
  {
    WiresAreSent(double, grants, w);
  }

  /** What an attempt takes back, of its own grants or of anything else. */
  predicate TakesBack(double: Rounding, x: Exchange, w: Wire) {
    KindOf(x.reserve).KindConflict? && CarriedOut(x.release) && Sends(double, Made(x.reserve), w)
  }

  /** Whatever ids a server grants and reports: what is held after an attempt is what was
      held or has just been made, unless it is taken back. */
  lemma AttemptMember(double: Rounding, holdings: set<Wire>, x: Exchange, w: Wire)
    ensures w in AfterAttempt(double, holdings, x) <==>
            (w in holdings || w in HeldBy(Made(x.reserve))) && !TakesBack(double, x, w)
  {
    if KindOf(x.reserve).KindConflict? {
      ReleaseMember(double, holdings + HeldBy(Made(x.reserve)), Made(x.reserve), x.release, w);
    }
  }

  /** No grant of the attempt is sent back under an id that is not its own. */
  ghost predicate NoStrays(double: Rounding, x: Exchange) {
    forall w {:trigger TakesBack(double, x, w)} :: TakesBack(double, x, w) ==> w in HeldBy(Made(x.reserve))
  }

  lemma UndoneIsTakenBack(double: Rounding, x: Exchange, i: nat)
    requires i < |Made(x.reserve)| && Undone(double, x, Made(x.reserve)[i])
    ensures TakesBack(double, x, Made(x.reserve)[i].held)
  {
  }

  /** When every grant is undone, an attempt leaves exactly what was there. */
  lemma CleanAttempt(double: Rounding, holdings: set<Wire>, x: Exchange)
    requires IsRounding(double) && HonestReply(double, holdings, x.reserve) && LeavesNothing(double, x)
    ensures AfterAttempt(double, holdings, x) == holdings
  {
    var grants := Made(x.reserve);
    forall w ensures w in AfterAttempt(double, holdings, x) <==> w in holdings {
      AttemptMember(double, holdings, x, w);
      HeldMember(grants, w);
      if i :| 0 <= i < |grants| && grants[i].held == w {
        assert Made(x.reserve)[i].held !in holdings;
        UndoneIsTakenBack(double, x, i);
      }
    }
  }

  /** A grant that stays held for good: it is not taken back in its own attempt, and it is
      either one that no attempt can take back, or its attempt has no strays. */
  ghost predicate Remains(double: Rounding, holdings: set<Wire>, x: Exchange, w: Wire) {
    && w !in holdings && w in HeldBy(Made(x.reserve)) && !TakesBack(double, x, w)
    && (NeverSent(double, w) || NoStrays(double, x))
  }

  lemma StrayRemains(double: Rounding, holdings: set<Wire>, x: Exchange, w: Wire) returns (left: Wire)
    requires IsRounding(double) && HonestReply(double, holdings, x.reserve) && TakesBack(double, x, w)
             && w !in HeldBy(Made(x.reserve))
    ensures Remains(double, holdings, x, left) && NeverSent(double, left)
  {
    var grants := Made(x.reserve);
    var j :| 0 <= j < |grants| && WireOf(double, grants[j].reported) == Some(w);
    left := grants[j].held;
    HeldMember(grants, w);
    HeldMember(grants, left);
    assert Made(x.reserve)[j].held !in holdings && ReportsOwnId(double, Made(x.reserve)[j]);
    StraysAreNeverSent(double, grants[j]);
    NeverSentIsNot(double, grants, left);
  }

  lemma NotUndoneRemains(double: Rounding, holdings: set<Wire>, x: Exchange, i: nat) returns (left: Wire)
    requires IsRounding(double) && HonestReply(double, holdings, x.reserve)
    requires i < |Made(x.reserve)| && !Undone(double, x, Made(x.reserve)[i])
    ensures Remains(double, holdings, x, left)
  {
    var grants := Made(x.reserve);
    left := grants[i].held;
    HeldMember(grants, left);
    assert Made(x.reserve)[i].held !in holdings;
    if TakesBack(double, x, left) {
      var j :| 0 <= j < |grants| && WireOf(double, grants[j].reported) == Some(left);
      assert j != i && grants[j].held != left by {
        assert j < i || i < j || i == j;
      }
      assert Made(x.reserve)[j].held !in holdings && ReportsOwnId(double, Made(x.reserve)[j]);
      left := grants[j].held;
      HeldMember(grants, left);
      StraysAreNeverSent(double, grants[j]);
      NeverSentIsNot(double, grants, left);
    } else if w :| TakesBack(double, x, w) && w !in HeldBy(grants) {
      left := StrayRemains(double, holdings, x, w);
    }
  }

  /** An attempt that leaves something behind leaves something new. */
  lemma AttemptLeavesSomething(double: Rounding, holdings: set<Wire>, x: Exchange) returns (left: Wire)
    requires IsRounding(double) && HonestReply(double, holdings, x.reserve) && !LeavesNothing(double, x)
    ensures Remains(double, holdings, x, left) && left in AfterAttempt(double, holdings, x) && left !in holdings
  {
    var i :| 0 <= i < |Made(x.reserve)| && !Undone(double, x, Made(x.reserve)[i]);
    left := NotUndoneRemains(double, holdings, x, i);
    AttemptMember(double, holdings, x, left);
  }

  /** One attempt leaves the agent holding exactly what it held before, if and only if every
      grant came beside a conflict, its release was carried out, and its id is sent back as
      the server's own. */
  lemma AttemptRestoresIff(double: Rounding, holdings: set<Wire>, x: Exchange)
    requires IsRounding(double) && HonestReply(double, holdings, x.reserve)
    ensures AfterAttempt(double, holdings, x) == holdings <==> LeavesNothing(double, x)
  {
    if LeavesNothing(double, x) {
      CleanAttempt(double, holdings, x);
    } else {
      var _ := AttemptLeavesSomething(double, holdings, x);
    }
  }

  /** What a first attempt leaves behind is not undone by the second one; if that one takes
      back something that it did not make, it leaves something behind of its own. */
  lemma SecondAttemptDoesNotHelp(double: Rounding, holdings: set<Wire>, x: Exchange, y: Exchange) returns (left: Wire)
    requires IsRounding(double) && HonestReply(double, holdings, x.reserve)
             && HonestReply(double, AfterAttempt(double, holdings, x), y.reserve)
    requires !LeavesNothing(double, x)
    ensures left !in holdings && left in AfterAttempt(double, AfterAttempt(double, holdings, x), y)
  {
    var first := AfterAttempt(double, holdings, x);
    left := AttemptLeavesSomething(double, holdings, x);
    AttemptMember(double, first, y, left);
    if TakesBack(double, y, left) {
      HeldMember(Made(y.reserve), left);
      assert forall i {:trigger Made(y.reserve)[i]} :: 0 <= i < |Made(y.reserve)| ==> Made(y.reserve)[i].held !in first;
      if NeverSent(double, left) {
        NeverSentIsNot(double, Made(y.reserve), left);
      } else {
        StrayIsNew(double, holdings, x, y, left);
        left := StrayRemains(double, first, y, left);
        AttemptMember(double, first, y, left);
        AttemptMember(double, holdings, x, left);
      }
    }
  }

  lemma StrayIsNew(double: Rounding, holdings: set<Wire>, x: Exchange, y: Exchange, left: Wire)
    requires IsRounding(double) && HonestReply(double, holdings, x.reserve) && NoStrays(double, x)
    ensures holdings <= AfterAttempt(double, holdings, x)
  {
    forall w | w in holdings ensures w in AfterAttempt(double, holdings, x) {
      AttemptMember(double, holdings, x, w);
      HeldMember(Made(x.reserve), w);
      assert forall i {:trigger Made(x.reserve)[i]} :: 0 <= i < |Made(x.reserve)| ==>
          Made(x.reserve)[i].held !in holdings;
    }
  }

  /** A call that does not succeed leaves the agent holding exactly what it held before,
      if and only if each of its attempts leaves nothing: every grant came beside a conflict,
      its release was carried out, and its id was sent back as the server's own. */
  lemma FailureHoldsNothingMore(double: Rounding, holdings: set<Wire>, script: seq<Exchange>)
    requires IsRounding(double) && |script| == 2 && HonestServer(double, holdings, script)
    ensures Holdings(double, holdings, script, LastAttempt(script) + 1) == holdings <==>
            LeavesNothing(double, script[0]) && (LastAttempt(script) == 1 ==> LeavesNothing(double, script[1]))
  {
    AttemptRestoresIff(double, holdings, script[0]);
    HoldingsUnfold(double, holdings, script);
    if LastAttempt(script) == 1 {
      if LeavesNothing(double, script[0]) {
        AttemptRestoresIff(double, holdings, script[1]);
      } else {
        var _ := SecondAttemptDoesNotHelp(double, holdings, script[0], script[1]);
      }
    }
  }

  lemma HoldingsUnfold(double: Rounding, holdings: set<Wire>, script: seq<Exchange>)
    requires |script| == 2
    ensures Holdings(double, holdings, script, 1) == AfterAttempt(double, holdings, script[0])
    ensures Holdings(double, holdings, script, 2) == AfterAttempt(double, AfterAttempt(double, holdings, script[0]),
            script[1])
  {
    assert Holdings(double, holdings, script, 0) == holdings;
  }

  /** A call that succeeds adds exactly the grants of its last attempt, if and only if the
      attempt before it, when there was one, leaves nothing. */
  lemma SuccessAddsLastGrants(double: Rounding, holdings: set<Wire>, script: seq<Exchange>)
    requires IsRounding(double) && |script| == 2 && HonestServer(double, holdings, script)
    requires KindOf(script[LastAttempt(script)].reserve).KindOk?
    ensures var n := LastAttempt(script);
            Holdings(double, holdings, script, n + 1) == holdings + HeldBy(GrantedOf(script[n].reserve)) <==>
            (n == 1 ==> LeavesNothing(double, script[0]))
    ensures GrantedOf(script[LastAttempt(script)].reserve) != []
  {
    HoldingsUnfold(double, holdings, script);
    AttemptRestoresIff(double, holdings, script[0]);
    if LastAttempt(script) == 1 && !LeavesNothing(double, script[0]) {
      var first, grants := AfterAttempt(double, holdings, script[0]), GrantedOf(script[1].reserve);
      var left := AttemptLeavesSomething(double, holdings, script[0]);
      HeldMember(grants, left);
      assert forall i {:trigger grants[i]} :: 0 <= i < |grants| ==> Made(script[1].reserve)[i] == grants[i];
      assert left in first + HeldBy(grants) && left !in holdings + HeldBy(grants);
    }
  }

  /** Releasing the ids that a successful call returned undoes the call, if and only if
      every one of them is sent back as the server's own. */
  lemma ReleaseUndoesReserve(double: Rounding, holdings: set<Wire>, r: ReserveReply, reply: ReleaseReply)
    requires IsRounding(double) && KindOf(r).KindOk? && HonestReply(double, holdings, r) && CarriedOut(reply)
    ensures AfterRelease(double, holdings + HeldBy(GrantedOf(r)), Ids(GrantedOf(r)), reply) == holdings <==>
            forall i {:trigger GrantedOf(r)[i]} :: 0 <= i < |GrantedOf(r)| ==> SentAsItself(double, GrantedOf(r)[i])
  {
    var grants := GrantedOf(r);
    var x := Exchange(Answered(Some(grants), Some([Conflict("")])), reply);
    assert Made(r) == grants == Made(x.reserve);
    AttemptRestoresIff(double, holdings, x);
    assert AfterAttempt(double, holdings, x) == AfterRelease(double, holdings + HeldBy(grants), Ids(grants), reply);
    assert LeavesNothing(double, x) <==>
        forall i {:trigger grants[i]} :: 0 <= i < |grants| ==> SentAsItself(double, grants[i]) by {
      assert forall i {:trigger grants[i]} :: 0 <= i < |grants| ==> Made(x.reserve)[i] == grants[i];
    }
  }

  /** Releasing the ids in the result of a call that succeeded gives back the old holdings, if
      and only if every id is sent back as the server's own and a conflicting attempt before
      it, when there was one, left nothing. */
  lemma ReleasingTheResultUndoes(double: Rounding, holdings: set<Wire>, script: seq<Exchange>, result: ReserveResult,
      reply: ReleaseReply)
    requires |script| == 2 && IsRounding(double) && HonestServer(double, holdings, script) && CarriedOut(reply)
    requires var n := LastAttempt(script); result.Reserved? && result == Verdict(script[n].reserve, n + 1)
    ensures var n := LastAttempt(script);
            AfterRelease(double, Holdings(double, holdings, script, n + 1), result.ids, reply) == holdings <==>
            && (n == 1 ==> LeavesNothing(double, script[0]))
            && forall i {:trigger result.granted[i]} :: 0 <= i < |result.granted| ==>
                SentAsItself(double, result.granted[i])
  {
    HoldingsUnfold(double, holdings, script);
    if LastAttempt(script) == 0 {
      ReleaseUndoesReserve(double, holdings, script[0].reserve, reply);
    } else if LeavesNothing(double, script[0]) {
      CleanAttempt(double, holdings, script[0]);
      ReleaseUndoesReserve(double, holdings, script[1].reserve, reply);
    } else {
      ReleaseDoesNotHelp(double, holdings, script[0], script[1].reserve, reply);
    }
  }

  /** What a first attempt leaves behind is not undone by releasing what the second one gave. */
  lemma ReleaseDoesNotHelp(double: Rounding, holdings: set<Wire>, x: Exchange, r: ReserveReply, reply: ReleaseReply)
    requires IsRounding(double) && HonestReply(double, holdings, x.reserve) && !LeavesNothing(double, x)
    requires HonestReply(double, AfterAttempt(double, holdings, x), r) && KindOf(r).KindOk? && CarriedOut(reply)
    ensures var first := AfterAttempt(double, holdings, x);
            AfterRelease(double, first + HeldBy(GrantedOf(r)), Ids(GrantedOf(r)), reply) != holdings
  {
    var y := Exchange(Answered(Some(GrantedOf(r)), Some([Conflict("")])), reply);
    assert Made(y.reserve) == Made(r);
    var left := SecondAttemptDoesNotHelp(double, holdings, x, y);
  }

  // ---- Ids that do not come back ----------------------------------------------------------

  function Beside(path: string, id: RawId, held: Wire): Exchange {
    Exchange(Answered(Some([Grant(path, id, held)]), Some([Conflict(path)])), ReleaseDone(None))
  }

  /** An answer with conflicts and no grants changes nothing. */
  function Nothing(path: string): Exchange {
    Exchange(Answered(None, Some([Conflict(path)])), ReleaseDone(None))
  }

  lemma NothingChanges(double: Rounding, holdings: set<Wire>, path: string)
    ensures AfterAttempt(double, holdings, Nothing(path)) == holdings
    ensures KindOf(Nothing(path).reserve).KindConflict?
    ensures Verdict(Nothing(path).reserve, 2) == NotReserved(Conflicts, [Conflict(path)], 2)
  {
    assert Made(Nothing(path).reserve) == [];
    assert Ids([]) == [] && Wires(double, []) == [];
  }

  lemma BesideAddsOne(double: Rounding, holdings: set<Wire>, path: string, id: RawId, held: Wire)
    requires WireOf(double, id) != Some(held)
    ensures held in AfterAttempt(double, holdings, Beside(path, id, held))
    ensures forall w :: WireOf(double, id) == Some(w) ==> w !in AfterAttempt(double, holdings, Beside(path, id, held))
  {
    var x := Beside(path, id, held);
    assert Made(x.reserve) == [Grant(path, id, held)];
    HeldMember(Made(x.reserve), held);
    assert Made(x.reserve)[0].held == held;
    AttemptMember(double, holdings, x, held);
    forall w | WireOf(double, id) == Some(w) ensures w !in AfterAttempt(double, holdings, x) {
      assert Made(x.reserve)[0].reported == id;
      AttemptMember(double, holdings, x, w);
    }
  }

  /** Whatever is not sent as itself stays held after both attempts have failed. */
  lemma ConflictLeavesGrant(double: Rounding, holdings: set<Wire>, path: string, id: RawId, held: Wire)
    requires held !in holdings && WireOf(double, id) != Some(held)
    ensures var x, y := Beside(path, id, held), Nothing(path);
            && LastAttempt([x, y]) == 1 && held in Holdings(double, holdings, [x, y], 2)
            && Verdict(y.reserve, 2) == NotReserved(Conflicts, [Conflict(path)], 2)
            && forall w :: WireOf(double, id) == Some(w) ==> w !in Holdings(double, holdings, [x, y], 2)
  {
    var x, y := Beside(path, id, held), Nothing(path);
    HoldingsUnfold(double, holdings, [x, y]);
    BesideAddsOne(double, holdings, path, id, held);
    NothingChanges(double, AfterAttempt(double, holdings, x), path);
    assert KindOf(x.reserve).KindConflict?;
  }

  /** So does one whose id is a number that reading the reply rounds to another one. */
  lemma RoundedIdStaysHeld(double: Rounding, path: string, held: real, value: real)
    requires double(held) == Some(value) && value != held
    ensures var x, y := Beside(path, NumberId(value), Number(held)), Nothing(path);
            && HonestReply(double, {}, x.reserve)
            && Number(held) in Holdings(double, {}, [x, y], 2)
            && Verdict(y.reserve, 2) == NotReserved(Conflicts, [Conflict(path)], 2)
  {
    ConflictLeavesGrant(double, {}, path, NumberId(value), Number(held));
    assert Made(Beside(path, NumberId(value), Number(held)).reserve) == [Grant(path, NumberId(value), Number(held))];
  }

  /** A grant beside a conflict with an empty id stays held after both attempts fail. */
  lemma EmptyIdStaysHeld(double: Rounding, path: string)
    ensures var x, y := Beside(path, TextId(""), Text("")), Nothing(path);
            && HonestReply(double, {}, x.reserve)
            && Text("") in Holdings(double, {}, [x, y], 2)
            && Verdict(y.reserve, 2) == NotReserved(Conflicts, [Conflict(path)], 2)
  {
    ConflictLeavesGrant(double, {}, path, TextId(""), Text(""));
    assert Made(Beside(path, TextId(""), Text("")).reserve) == [Grant(path, TextId(""), Text(""))];
  }

  /** So does one whose id is a text of digits, because it is sent as a number; and the agent
      loses the reservation that goes by that number, if it held one. */
  lemma DigitIdStaysHeld(double: Rounding, path: string, text: string, value: real)
    requires AllDigits(text) && double(DigitsValue(text) as real) == Some(value)
    ensures var x, y := Beside(path, TextId(text), Text(text)), Nothing(path);
            && HonestReply(double, {Number(value)}, x.reserve)
            && Holdings(double, {Number(value)}, [x, y], 2) == {Text(text)}
            && Verdict(y.reserve, 2) == NotReserved(Conflicts, [Conflict(path)], 2)
  {
    var x, y := Beside(path, TextId(text), Text(text)), Nothing(path);
    var before := {Number(value)};
    ConflictLeavesGrant(double, before, path, TextId(text), Text(text));
    assert Made(x.reserve) == [Grant(path, TextId(text), Text(text))];
    HoldingsUnfold(double, before, [x, y]);
    forall w ensures w in Holdings(double, before, [x, y], 2) <==> w == Text(text) {
      AttemptMember(double, before, x, w);
      AttemptMember(double, AfterAttempt(double, before, x), y, w);
      HeldMember(Made(x.reserve), w);
      assert Made(y.reserve) == [];
    }
  }
}
