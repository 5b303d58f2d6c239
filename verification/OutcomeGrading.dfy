/** Grading the outcome of a cycle: a lock per plan slug, one verdict file per
    iteration, a bounded history, and a cap on the iterations. */
module OutcomeGrading {
  import opened Options

  const MIN_OUTCOME_ITERATIONS: real := 1.0
  const MAX_OUTCOME_ITERATIONS: real := 5.0
  const DEFAULT_OUTCOME_ITERATIONS: real := 3.0
  const HISTORY_FIFO_CAP := 5

  datatype Status = Satisfied | NeedsRevision | MaxIterationsReached | Failed

  /** `persisted` is absent in the file, which is written before the field is set. */
  datatype Verdict = Verdict(status: Status, iteration: nat, persisted: Option<bool>)

  datatype Rubric = NoRubricFile | BadRubric | GoodRubric

  /** What one call finds when it starts. `pathSlug` is the slug of the rubric path, if there is one. */
  datatype Call = Call(
    skipped: bool,
    pathSlug: Option<string>,
    planSlug: Option<string>,
    force: bool,
    rubric: Rubric,
    maxIterations: Option<real>)

  datatype Refusal = RubricMissing | ConcurrentGrade | RubricInvalid | VerdictExists

  /** A call that has passed its checks; `begun` is how many grades were recorded by then. */
  datatype Job = Job(slug: string, force: bool, iteration: nat, cap: real, begun: nat)

  datatype Began = Skipped | Refused(error: Refusal) | Started(iteration: nat, cap: real)

  /** How the attempt to write the verdict file ends. */
  datatype Disk = Written | DiskFull | WriteError

  /** The plan slug and the iteration that name a verdict file. */
  type Key = (string, nat)

  /** The session's history, the locks of the process, and the verdict files. */
  datatype Store = Store(history: seq<Verdict>, locks: set<string>, files: map<Key, Verdict>)

  function GetMaxOutcomeIterations(maxIterations: Option<real>): (cap: real)
    ensures MIN_OUTCOME_ITERATIONS <= cap <= MAX_OUTCOME_ITERATIONS
    ensures maxIterations.Some? && MIN_OUTCOME_ITERATIONS <= maxIterations.value <= MAX_OUTCOME_ITERATIONS ==>
            cap == maxIterations.value
    ensures maxIterations.None? ==> cap == DEFAULT_OUTCOME_ITERATIONS
    ensures maxIterations.Some? && maxIterations.value < MIN_OUTCOME_ITERATIONS ==> cap == MIN_OUTCOME_ITERATIONS
    ensures maxIterations.Some? && maxIterations.value > MAX_OUTCOME_ITERATIONS ==> cap == MAX_OUTCOME_ITERATIONS
  {
    var raw := if maxIterations.Some? then maxIterations.value else DEFAULT_OUTCOME_ITERATIONS;
    var atLeast := if raw < MIN_OUTCOME_ITERATIONS then MIN_OUTCOME_ITERATIONS else raw;
    if atLeast > MAX_OUTCOME_ITERATIONS then MAX_OUTCOME_ITERATIONS else atLeast
  }

  function SlugOf(call: Call): string
    requires call.pathSlug.Some?
  {
    if call.planSlug.Some? then call.planSlug.value else call.pathSlug.value
  }

  /** The last five of a list. */
  function LastFive<T>(items: seq<T>): seq<T> {
    if |items| <= HISTORY_FIFO_CAP then items else items[|items| - HISTORY_FIFO_CAP..]
  }

  /** A grading answer as the server records it: no call for another revision
      once the cap is reached. */
  function Coerced(status: Status, iteration: nat, cap: real): Status {
    if iteration as real >= cap && status == NeedsRevision then MaxIterationsReached else status
  }

  // ---- One call, in the pieces between which other calls can run ---------------------

  function BeginResult(s: Store, call: Call): Began {
    if call.skipped then Skipped
    else if call.pathSlug.None? then Refused(RubricMissing)
    else if SlugOf(call) in s.locks && !call.force then Refused(ConcurrentGrade)
    else if call.rubric.NoRubricFile? then Refused(RubricMissing)
    else if call.rubric.BadRubric? then Refused(RubricInvalid)
    else if (SlugOf(call), |s.history| + 1) in s.files && !call.force then Refused(VerdictExists)
    else Started(|s.history| + 1, GetMaxOutcomeIterations(call.maxIterations))
  }

  /** A call that is refused after it took the lock gives the lock up, whoever had it before. */
  function BeginStore(s: Store, call: Call): Store {
    var result := BeginResult(s, call);
    if result.Started? then s.(locks := s.locks + {SlugOf(call)})
    else if result.Refused? && call.pathSlug.Some?
        && !result.error.ConcurrentGrade? then s.(locks := s.locks - {SlugOf(call)})
    else s
  }

  function PersistStore(s: Store, job: Job, status: Status, disk: Disk): Store {
    match disk
    case Written => s.(files := s.files[(job.slug, job.iteration) := Verdict(Coerced(status, job.iteration, job.cap),
        job.iteration, None)])
    case DiskFull => s
    case WriteError => s.(locks := s.locks - {job.slug})
  }

  function RecordStore(s: Store, job: Job, verdict: Verdict): Store {
    s.(history := LastFive(s.history + [verdict]), locks := s.locks - {job.slug})
  }

  /** When a call starts, and which complaint it gets otherwise; the first that applies. */
  lemma BeginMeans(s: Store, call: Call)
    ensures var r := BeginResult(s, call);
            && (r.Skipped? <==> call.skipped)
            && (r == Refused(ConcurrentGrade) <==>
                !call.skipped && call.pathSlug.Some? && !call.force && SlugOf(call) in s.locks)
            && (r.Started? <==>
                && !call.skipped && call.pathSlug.Some? && call.rubric.GoodRubric?
                && (call.force || (SlugOf(call) !in s.locks && (SlugOf(call), |s.history| + 1) !in s.files)))
            && (r == Refused(RubricMissing) ==> call.pathSlug.None? || call.rubric.NoRubricFile?)
            && (r == Refused(RubricInvalid) ==> call.rubric.BadRubric?)
            && (r == Refused(VerdictExists) ==>
                call.rubric.GoodRubric? && !call.force && (SlugOf(call), |s.history| + 1) in s.files)
    ensures call.pathSlug.Some? ==> SlugOf(call) == call.planSlug.GetOr(call.pathSlug.value)
  {
  }

  /** A call that starts has the next iteration and the configured cap, kept between one and
      five; it touches nothing but the lock of its slug. */
  lemma BeginTouchesOneLock(s: Store, call: Call)
    ensures var r, t := BeginResult(s, call), BeginStore(s, call);
            && t.history == s.history && t.files == s.files
            && (r.Started? ==>
                && r.iteration == |s.history| + 1
                && (call.maxIterations.None? ==> r.cap == 3.0)
                && (call.maxIterations.Some? ==>
                    r.cap == if call.maxIterations.value < 1.0 then 1.0
                             else if call.maxIterations.value > 5.0 then 5.0 else call.maxIterations.value))
            && (forall slug :: slug in t.locks <==>
                  if call.pathSlug.Some? && slug == SlugOf(call) && !r.Skipped? && r != Refused(ConcurrentGrade)
                  then r.Started?
                  else slug in s.locks)
  {
  }

  class Session {
    var history: seq<Verdict>
    var locks: set<string>
    var files: map<Key, Verdict>

    ghost function View(): Store
      reads this
    {
      Store(history, locks, files)
    }

    /** From the start of a call to its first pause. */
    method Begin(call: Call) returns (result: Began)
      modifies this
      ensures View() == BeginStore(old(View()), call) && result == BeginResult(old(View()), call)
    {
      if call.skipped { return Skipped; }
      if call.pathSlug.None? { return Refused(RubricMissing); }
      var slug := SlugOf(call);
      if slug in locks && !call.force { return Refused(ConcurrentGrade); }
      locks := locks + {slug};
      if call.rubric.NoRubricFile? {
        result := Refused(RubricMissing);
      } else if call.rubric.BadRubric? {
        result := Refused(RubricInvalid);
      } else {
        var iteration := |history| + 1;
        if (slug, iteration) in files && !call.force {
          result := Refused(VerdictExists);
        } else {
          return Started(iteration, GetMaxOutcomeIterations(call.maxIterations));
        }
      }
      locks := locks - {slug};
    }

    /** A grader that failed or answered badly twice. */
    method GiveUp(job: Job)
      modifies this
      ensures View() == old(View()).(locks := old(locks) - {job.slug})
    {
      locks := locks - {job.slug};
    }

    /** Writes the verdict file; nothing is returned when the write fails for good. */
    method Persist(job: Job, status: Status, disk: Disk) returns (verdict: Option<Verdict>)
      modifies this
      ensures View() == PersistStore(old(View()), job, status, disk)
      ensures verdict == if disk.WriteError? then None
                         else Some(Verdict(Coerced(status, job.iteration, job.cap), job.iteration, Some(disk.Written?)))
    {
      var final := if job.iteration as real >= job.cap && status == NeedsRevision then MaxIterationsReached else status;
      if disk.WriteError? {
        locks := locks - {job.slug};
        return None;
      }
      if disk.Written? {
        files := files[(job.slug, job.iteration) := Verdict(final, job.iteration, None)];
      }
      return Some(Verdict(final, job.iteration, Some(disk.Written?)));
    }

    method Record(job: Job, verdict: Verdict)
      modifies this
      ensures View() == RecordStore(old(View()), job, verdict)
    {
      var hist := history + [verdict];
      ghost var all := hist;
      while |hist| > HISTORY_FIFO_CAP
        invariant |hist| <= |all| && hist == all[|all| - |hist|..] && (|hist| < |all| ==> |hist| >= HISTORY_FIFO_CAP)
      {
        hist := hist[1..];
      }
      history := hist;
      locks := locks - {job.slug};
    }
  }

  // ---- Runs ------------------------------------------------------------------------

  datatype Phase = Grading | Persisted(verdict: Verdict) | Done

  datatype Task = Task(job: Job, phase: Phase)

  datatype Grade = Grade(job: Job, verdict: Verdict)

  /** The store, every call that has started, and every grade recorded so far.
      `overwrites` lists the calls that replaced a verdict file. */
  datatype System = System(store: Store, tasks: seq<Task>, recorded: seq<Grade>, overwrites: seq<nat>)

  datatype Event =
    | Begin(call: Call)
    | GiveUp(k: nat)
    | Persist(k: nat, status: Status, disk: Disk)
    | Record(k: nat)
    | Delete(slug: string, iteration: nat)
    | Crash

  /** A process with an empty history, whatever verdict files are there. */
  function Fresh(files: map<Key, Verdict>): System {
    System(Store([], {}, files), [], [], [])
  }

  function Stopped(tasks: seq<Task>): seq<Task> {
    seq(|tasks|, i requires 0 <= i < |tasks| => tasks[i].(phase := Done))
  }

  function Begun(s: System, call: Call): System {
    var result := BeginResult(s.store, call);
    var after := s.(store := BeginStore(s.store, call));
    if result.Started? then
      after.(tasks := s.tasks + [Task(Job(SlugOf(call), call.force, result.iteration, result.cap, |s.recorded|),
          Grading)])
    else after
  }

  function PersistDone(s: System, k: nat, status: Status, disk: Disk): System
    requires k < |s.tasks|
  {
    var job := s.tasks[k].job;
    var verdict := Verdict(Coerced(status, job.iteration, job.cap), job.iteration, Some(disk.Written?));
    System(PersistStore(s.store, job, status, disk),
           s.tasks[k := Task(job, if disk.WriteError? then Done else Persisted(verdict))],
           s.recorded,
           if disk.Written? && (job.slug, job.iteration) in s.store.files then s.overwrites + [k] else s.overwrites)
  }

  function RecordDone(s: System, k: nat): System
    requires k < |s.tasks| && s.tasks[k].phase.Persisted?
  {
    var task := s.tasks[k];
    s.(store := RecordStore(s.store, task.job, task.phase.verdict),
       tasks := s.tasks[k := task.(phase := Done)],
       recorded := s.recorded + [Grade(task.job, task.phase.verdict)])
  }

  /** One step; an event that does not apply changes nothing. */
  function Next(s: System, e: Event): System {
    match e
    case Begin(call) => Begun(s, call)
    case GiveUp(k) =>
      if k >= |s.tasks| || !s.tasks[k].phase.Grading? then s
      else s.(store := s.store.(locks := s.store.locks - {s.tasks[k].job.slug}),
          tasks := s.tasks[k := s.tasks[k].(phase := Done)])
    case Persist(k, status, disk) => if k >= |s.tasks| || !s.tasks[k].phase.Grading? then s
        else PersistDone(s, k, status, disk)
    case Record(k) => if k >= |s.tasks| || !s.tasks[k].phase.Persisted? then s else RecordDone(s, k)
    case Delete(slug, iteration) => s.(store := s.store.(files := s.store.files - {(slug, iteration)}))
    case Crash => s.(store := s.store.(locks := {}), tasks := Stopped(s.tasks))
  }

  /** The system after the first `n` events. */
  function After(files: map<Key, Verdict>, events: seq<Event>, n: nat): System
    requires n <= |events|
  {
    if n == 0 then Fresh(files) else Next(After(files, events, n - 1), events[n - 1])
  }

  function Run(files: map<Key, Verdict>, events: seq<Event>): System {
    After(files, events, |events|)
  }

  // ---- What holds in every run --------------------------------------------------------

  function Verdicts(grades: seq<Grade>): seq<Verdict> {
    seq(|grades|, i requires 0 <= i < |grades| => grades[i].verdict)
  }

  function Smaller(a: nat, b: nat): nat {
    if a < b then a else b
  }

  /** A call's iteration follows from the number of grades recorded when it began. */
  ghost predicate JobFits(job: Job, recorded: nat) {
    job.begun <= recorded && job.iteration == Smaller(job.begun, HISTORY_FIFO_CAP) + 1
  }

  ghost predicate VerdictFits(job: Job, verdict: Verdict) {
    verdict.iteration == job.iteration && !(verdict.status == NeedsRevision && job.iteration as real >= job.cap)
  }

  ghost predicate TaskFits(s: System, k: nat)
    requires k < |s.tasks|
  {
    JobFits(s.tasks[k].job, |s.recorded|)
        && (s.tasks[k].phase.Persisted? ==> VerdictFits(s.tasks[k].job, s.tasks[k].phase.verdict))
  }

  ghost predicate GradeFits(s: System, i: nat)
    requires i < |s.recorded|
  {
    JobFits(s.recorded[i].job, i) && VerdictFits(s.recorded[i].job, s.recorded[i].verdict)
  }

  ghost predicate Inv(s: System) {
    && s.store.history == LastFive(Verdicts(s.recorded))
    && (forall k {:trigger TaskFits(s, k)} :: 0 <= k < |s.tasks| ==> TaskFits(s, k))
    && (forall i {:trigger GradeFits(s, i)} :: 0 <= i < |s.recorded| ==> GradeFits(s, i))
  }

  lemma LastFiveAdds<T>(items: seq<T>, item: T)
    ensures LastFive(LastFive(items) + [item]) == LastFive(items + [item])
  {
  }

  /** Steps that record nothing. */
  lemma QuietStepKeepsInv(s: System, t: System)
    requires Inv(s) && t.recorded == s.recorded && t.store.history == s.store.history && |t.tasks| >= |s.tasks|
    requires forall k {:trigger TaskFits(t, k)} :: 0 <= k < |t.tasks| ==> TaskFits(t, k)
    ensures Inv(t)
  {
    forall i | 0 <= i < |t.recorded| ensures GradeFits(t, i) {
      assert GradeFits(s, i);
    }
  }

  lemma QuietTasksFit(s: System, e: Event, k: nat)
    requires Inv(s) && (e.Record? ==> Next(s, e) == s) && k < |Next(s, e).tasks|
    ensures TaskFits(Next(s, e), k)
  {
    assert k < |s.tasks| ==> TaskFits(s, k);
  }

  lemma RecordKeepsInv(s: System, k: nat)
    requires Inv(s) && k < |s.tasks| && s.tasks[k].phase.Persisted?
    ensures Inv(RecordDone(s, k))
  {
    var t, verdict := RecordDone(s, k), s.tasks[k].phase.verdict;
    assert TaskFits(s, k);
    forall j | 0 <= j < |t.tasks| ensures TaskFits(t, j) {
      assert TaskFits(s, j);
    }
    forall i | 0 <= i < |t.recorded| ensures GradeFits(t, i) {
      assert i < |s.recorded| ==> GradeFits(s, i);
    }
    LastFiveAdds(Verdicts(s.recorded), verdict);
    assert Verdicts(t.recorded) == Verdicts(s.recorded) + [verdict];
  }

  lemma StepKeepsInv(s: System, e: Event)
    requires Inv(s)
    ensures Inv(Next(s, e))
  {
    if e.Record? && e.k < |s.tasks| && s.tasks[e.k].phase.Persisted? {
      RecordKeepsInv(s, e.k);
    } else {
      forall k | 0 <= k < |Next(s, e).tasks| ensures TaskFits(Next(s, e), k) {
        QuietTasksFit(s, e, k);
      }
      QuietStepKeepsInv(s, Next(s, e));
    }
  }

  lemma {:induction false} RunKeepsInv(files: map<Key, Verdict>, events: seq<Event>, n: nat)
    requires n <= |events|
    ensures Inv(After(files, events, n))
  {
    if n > 0 {
      RunKeepsInv(files, events, n - 1);
      StepKeepsInv(After(files, events, n - 1), events[n - 1]);
    }
  }

  /** However calls interleave, the history is the last five recorded grades, and none of
      the grades ever recorded asks for another revision at or above its cap. */
  lemma HistoryAndCapHold(files: map<Key, Verdict>, events: seq<Event>, i: nat)
    ensures var h, r := Run(files, events).store.history, Run(files, events).recorded;
            && |h| == (if |r| < 5 then |r| else 5)
            && forall j {:trigger h[j]} :: 0 <= j < |h| ==> h[j] == r[|r| - |h| + j].verdict
    ensures i < |Run(files, events).recorded| ==>
              var g := Run(files, events).recorded[i];
              g.verdict.iteration as real >= g.job.cap ==> g.verdict.status != NeedsRevision
  {
    RunKeepsInv(files, events, |events|);
    assert i < |Run(files, events).recorded| ==> GradeFits(Run(files, events), i);
  }

  /** The k-th grade has iteration min(k, 6) exactly when no other grade was recorded
      between its start and its end, or five had been recorded when it started. */
  lemma IterationIsPositionIff(files: map<Key, Verdict>, events: seq<Event>, i: nat)
    requires i < |Run(files, events).recorded|
    ensures var g := Run(files, events).recorded[i];
            g.verdict.iteration == Smaller(i + 1, 6) <==> g.job.begun == i || g.job.begun >= 5
  {
    RunKeepsInv(files, events, |events|);
    assert GradeFits(Run(files, events), i);
  }

  // ---- Who is in flight ------------------------------------------------------------------

  predicate Active(s: System, k: nat)
    requires k < |s.tasks|
  {
    !s.tasks[k].phase.Done?
  }

  predicate ActiveOn(s: System, slug: string, k: nat)
    requires k < |s.tasks|
  {
    s.tasks[k].job.slug == slug && !s.tasks[k].phase.Done?
  }

  predicate InFlight(s: System, slug: string) {
    exists i {:trigger ActiveOn(s, slug, i)} :: 0 <= i < |s.tasks| && ActiveOn(s, slug, i)
  }

  predicate TwoInFlight(s: System, slug: string) {
    exists i, j {:trigger ActiveOn(s, slug, i), ActiveOn(s, slug, j)} ::
      0 <= i < j < |s.tasks| && ActiveOn(s, slug, i) && ActiveOn(s, slug, j)
  }

  /** A call on the slug that is not skipped. */
  predicate CallsOn(e: Event, slug: string) {
    e.Begin? && !e.call.skipped && e.call.pathSlug.Some? && SlugOf(e.call) == slug
  }

  /** A forced call on the slug while another one is in flight. */
  predicate Disturbs(s: System, e: Event, slug: string) {
    CallsOn(e, slug) && e.call.force && InFlight(s, slug)
  }

  predicate DisturbsAt(files: map<Key, Verdict>, events: seq<Event>, slug: string, b: nat) {
    b < |events| && Disturbs(After(files, events, b), events[b], slug)
  }

  predicate Disturbed(files: map<Key, Verdict>, events: seq<Event>, slug: string) {
    exists b {:trigger DisturbsAt(files, events, slug, b)} :: 0 <= b < |events| && DisturbsAt(files, events, slug, b)
  }

  /** At most one call on the slug is in flight, and the lock is held exactly while one is. */
  ghost predicate Exclusive(s: System, slug: string) {
    && (forall i, j {:trigger ActiveOn(s, slug, i), ActiveOn(s, slug, j)} ::
          0 <= i < |s.tasks| && 0 <= j < |s.tasks| && ActiveOn(s, slug, i) && ActiveOn(s, slug, j) ==> i == j)
    && (slug in s.store.locks <==> InFlight(s, slug))
  }

  lemma BeginKeepsExclusive(s: System, call: Call, slug: string)
    requires Exclusive(s, slug) && !Disturbs(s, Begin(call), slug)
    ensures Exclusive(Begun(s, call), slug)
  {
    var t := Begun(s, call);
    assert forall k {:trigger ActiveOn(t, slug, k)} {:trigger ActiveOn(s, slug, k)} :: 0 <= k < |s.tasks| ==>
        ActiveOn(t, slug, k) == ActiveOn(s, slug, k);
    assert |t.tasks| > |s.tasks| ==> (ActiveOn(t, slug, |s.tasks|) <==> SlugOf(call) == slug);
    if InFlight(s, slug) {
      var k :| 0 <= k < |s.tasks| && ActiveOn(s, slug, k);
      assert ActiveOn(t, slug, k);
    }
  }

  /** Task `k` goes on to its next phase; its lock goes when it is done. */
  ghost predicate TaskMoves(s: System, t: System, k: nat) {
    && k < |s.tasks| && !s.tasks[k].phase.Done?
    && |t.tasks| == |s.tasks| && t.tasks[k].job == s.tasks[k].job && t.tasks[k].phase != Grading
    && (forall j {:trigger t.tasks[j]} :: 0 <= j < |s.tasks| && j != k ==> t.tasks[j] == s.tasks[j])
    && (if t.tasks[k].phase.Done? then t.store.locks == s.store.locks - {s.tasks[k].job.slug}
        else t.store.locks == s.store.locks)
  }

  lemma TaskStepKeepsExclusive(s: System, t: System, slug: string, k: nat)
    requires Exclusive(s, slug) && TaskMoves(s, t, k)
    ensures Exclusive(t, slug)
  {
    forall j | 0 <= j < |t.tasks| ensures ActiveOn(t, slug, j) <==>
        ActiveOn(s, slug, j) && (j == k ==> !t.tasks[k].phase.Done?) {
      assert j != k ==> t.tasks[j] == s.tasks[j];
    }
    assert ActiveOn(s, s.tasks[k].job.slug, k);
    if i :| 0 <= i < |s.tasks| && ActiveOn(s, slug, i) {
      assert (t.tasks[k].phase.Done? && slug == s.tasks[k].job.slug) || ActiveOn(t, slug, i);
    }
  }

  lemma StepMovesTask(s: System, e: Event)
    requires (e.GiveUp? || e.Persist? || e.Record?) && Next(s, e) != s
    ensures TaskMoves(s, Next(s, e), e.k)
  {
  }

  lemma StepKeepsExclusive(s: System, e: Event, slug: string)
    requires Exclusive(s, slug) && !Disturbs(s, e, slug)
    ensures Exclusive(Next(s, e), slug)
  {
    var t := Next(s, e);
    match e
    case Begin(call) => BeginKeepsExclusive(s, call, slug);
    case Delete(_, _) =>
      assert forall k {:trigger ActiveOn(t, slug, k)} {:trigger ActiveOn(s, slug, k)} :: 0 <= k < |s.tasks| ==>
          ActiveOn(t, slug, k) == ActiveOn(s, slug, k);
    case Crash =>
    case _ =>
      if t != s {
        StepMovesTask(s, e);
        TaskStepKeepsExclusive(s, t, slug, e.k);
      }
  }

  lemma {:induction false} UndisturbedIsExclusive(files: map<Key, Verdict>, events: seq<Event>, slug: string, n: nat)
    requires n <= |events| && forall b {:trigger DisturbsAt(files, events, slug, b)} :: 0 <= b < n ==>
             !DisturbsAt(files, events, slug, b)
    ensures Exclusive(After(files, events, n), slug)
  {
    if n > 0 {
      UndisturbedIsExclusive(files, events, slug, n - 1);
      assert !DisturbsAt(files, events, slug, n - 1);
      StepKeepsExclusive(After(files, events, n - 1), events[n - 1], slug);
    }
  }

  /** After a forced call that comes while another one is in flight, there are two, or the
      one that was there has lost its lock. */
  lemma DisturbanceBreaksLock(s: System, e: Event, slug: string)
    requires Disturbs(s, e, slug)
    ensures TwoInFlight(Next(s, e), slug) || (InFlight(Next(s, e), slug) && slug !in Next(s, e).store.locks)
  {
    var t := Next(s, e);
    var k :| 0 <= k < |s.tasks| && ActiveOn(s, slug, k);
    assert ActiveOn(t, slug, k);
    if |t.tasks| > |s.tasks| {
      assert ActiveOn(t, slug, |s.tasks|);
    }
  }

  /** The lock does its work at every point of a run, one call in flight at most and the
      lock held exactly meanwhile, if and only if no forced call on the slug is made while
      another one is in flight. */
  lemma LockWorksIff(files: map<Key, Verdict>, events: seq<Event>, slug: string)
    ensures (forall n {:trigger After(files, events, n)} :: 0 <= n <= |events| ==>
            Exclusive(After(files, events, n), slug))
            <==> !Disturbed(files, events, slug)
  {
    if !Disturbed(files, events, slug) {
      forall n | 0 <= n <= |events| ensures Exclusive(After(files, events, n), slug) {
        UndisturbedIsExclusive(files, events, slug, n);
      }
    } else {
      var b :| 0 <= b < |events| && DisturbsAt(files, events, slug, b);
      DisturbanceBreaksLock(After(files, events, b), events[b], slug);
      assert !Exclusive(After(files, events, b + 1), slug);
    }
  }

  ghost predicate Unforced(events: seq<Event>, slug: string) {
    forall i {:trigger events[i]} :: 0 <= i < |events| && CallsOn(events[i], slug) ==> !events[i].call.force
  }

  lemma {:induction false} SameStart(files: map<Key, Verdict>, events: seq<Event>, more: seq<Event>, n: nat)
    requires n <= |events|
    ensures After(files, events + more, n) == After(files, events, n)
  {
    if n > 0 {
      SameStart(files, events, more, n - 1);
    }
  }

  /** Going on without forced calls on the slug, two of them come to be in flight. */
  ghost predicate Doubles(files: map<Key, Verdict>, events: seq<Event>, slug: string, n: nat, more: seq<Event>)
    requires n <= |events|
  {
    Unforced(more, slug) && TwoInFlight(Run(files, events[..n] + more), slug)
  }

  function Plain(slug: string, force: bool): Event {
    Begin(Call(false, Some(slug), None, force, GoodRubric, None))
  }

  /** While the lock is free, a call on the slug starts as soon as its verdict file is deleted. */
  lemma FreeLockLetsIn(s: System, slug: string)
    requires InFlight(s, slug) && slug !in s.store.locks
    ensures TwoInFlight(Next(Next(s, Delete(slug, |s.store.history| + 1)), Plain(slug, false)), slug)
  {
    var d := Next(s, Delete(slug, |s.store.history| + 1));
    var t := Next(d, Plain(slug, false));
    var k :| 0 <= k < |s.tasks| && ActiveOn(s, slug, k);
    assert t.tasks[k] == s.tasks[k];
    assert ActiveOn(t, slug, k) && ActiveOn(t, slug, |s.tasks|);
  }

  lemma AfterTwo(files: map<Key, Verdict>, events: seq<Event>, e: Event, f: Event)
    ensures Run(files, events + [e, f]) == Next(Next(Run(files, events), e), f)
  {
    var all, n := events + [e, f], |events|;
    SameStart(files, events, [e, f], n);
    assert all[n] == e && all[n + 1] == f;
    assert After(files, all, n + 1) == Next(After(files, all, n), e);
  }

  lemma DisturbanceDoubles(files: map<Key, Verdict>, events: seq<Event>, slug: string, b: nat)
      returns (more: seq<Event>)
    requires b < |events| && DisturbsAt(files, events, slug, b)
    ensures Doubles(files, events, slug, b + 1, more)
  {
    var start := events[..b + 1];
    SameStart(files, start, events[b + 1..], b + 1);
    assert start + events[b + 1..] == events;
    var s := Run(files, start);
    DisturbanceBreaksLock(After(files, events, b), events[b], slug);
    if TwoInFlight(s, slug) {
      more := [];
      assert start + more == start;
    } else {
      more := [Delete(slug, |s.store.history| + 1), Plain(slug, false)];
      FreeLockLetsIn(s, slug);
      AfterTwo(files, start, more[0], more[1]);
    }
  }

  lemma {:induction false} UnforcedStaysExclusive(files: map<Key, Verdict>, events: seq<Event>, more: seq<Event>,
      slug: string, n: nat)
    requires n <= |more| && Exclusive(Run(files, events), slug) && Unforced(more, slug)
    ensures Exclusive(After(files, events + more, |events| + n), slug)
  {
    var all := events + more;
    if n == 0 {
      SameStart(files, events, more, |events|);
    } else {
      UnforcedStaysExclusive(files, events, more, slug, n - 1);
      assert all[|events| + n - 1] == more[n - 1];
      StepKeepsExclusive(After(files, all, |events| + n - 1), more[n - 1], slug);
    }
  }

  /** A second grader for a slug can come to be in flight, at some point of a run and by
      unforced calls from there, if and only if the run has a forced call on the slug while
      another one is in flight. */
  lemma SecondGraderIff(files: map<Key, Verdict>, events: seq<Event>, slug: string)
    ensures (exists n, more {:trigger Doubles(files, events, slug, n, more)} ::
               0 <= n <= |events| && Doubles(files, events, slug, n, more))
            <==> Disturbed(files, events, slug)
  {
    if Disturbed(files, events, slug) {
      var b :| 0 <= b < |events| && DisturbsAt(files, events, slug, b);
      var more := DisturbanceDoubles(files, events, slug, b);
      assert Doubles(files, events, slug, b + 1, more);
    } else {
      forall n, more | 0 <= n <= |events| ensures !Doubles(files, events, slug, n, more) {
        if Unforced(more, slug) {
          UndisturbedIsExclusive(files, events, slug, n);
          assert events[..n] + events[n..] == events;
          SameStart(files, events[..n], events[n..], n);
          UnforcedStaysExclusive(files, events[..n], more, slug, |more|);
        }
      }
    }
  }

  // ---- Which verdict files are overwritten ----------------------------------------------------

  function KeyOf(job: Job): Key {
    (job.slug, job.iteration)
  }

  /** Event `b` is the call that becomes task `k`. */
  predicate StartsAt(files: map<Key, Verdict>, events: seq<Event>, b: nat, k: nat) {
    b < |events| && |After(files, events, b).tasks| == k && |After(files, events, b + 1).tasks| == k + 1
  }

  /** Event `p` is task `k` writing its verdict file. */
  predicate WritesAt(files: map<Key, Verdict>, events: seq<Event>, p: nat, k: nat) {
    && p < |events| && events[p].Persist? && events[p].k == k && events[p].disk.Written?
    && k < |After(files, events, p).tasks| && After(files, events, p).tasks[k].phase.Grading?
  }

  /** ... under the name `key`. */
  predicate WritesKeyAt(files: map<Key, Verdict>, events: seq<Event>, p: nat, k: nat, key: Key) {
    WritesAt(files, events, p, k) && KeyOf(After(files, events, p).tasks[k].job) == key
  }

  predicate DeletesKey(e: Event, key: Key) {
    e.Delete? && (e.slug, e.iteration) == key
  }

  predicate NoDeleteBetween(events: seq<Event>, q: nat, p: nat, key: Key)
    requires p <= |events|
  {
    forall r {:trigger events[r]} :: q < r < p ==> !DeletesKey(events[r], key)
  }

  /** The newest write of a file, made by another call since event `b`, with the file still there at `p`. */
  ghost predicate StandsFrom(files: map<Key, Verdict>, events: seq<Event>, b: nat, p: nat, key: Key, q: nat, j: nat)
    requires p <= |events|
  {
    b <= q < p && WritesKeyAt(files, events, q, j, key) && NoDeleteBetween(events, q, p, key)
  }

  lemma FilesAfterStep(s: System, e: Event, key: Key)
    ensures key in Next(s, e).store.files <==>
            (key in s.store.files && !DeletesKey(e, key))
            || (e.Persist? && e.disk.Written? && e.k < |s.tasks| && s.tasks[e.k].phase.Grading?
                && KeyOf(s.tasks[e.k].job) == key)
  {
  }

  lemma StandsLonger(files: map<Key, Verdict>, events: seq<Event>, b: nat, p: nat, key: Key, q: nat, j: nat)
    requires p < |events| && StandsFrom(files, events, b, p, key, q, j) && !DeletesKey(events[p], key)
    ensures StandsFrom(files, events, b, p + 1, key, q, j)
  {
  }

  /** A file that was missing and is there later has been written since, by a call after which
      nobody has deleted it. */
  lemma {:induction false} FileWasWritten(files: map<Key, Verdict>, events: seq<Event>, b: nat, p: nat, key: Key)
      returns (q: nat, j: nat)
    requires b <= p <= |events| && key !in After(files, events, b).store.files
             && key in After(files, events, p).store.files
    ensures StandsFrom(files, events, b, p, key, q, j)
    decreases p
  {
    var s, e := After(files, events, p - 1), events[p - 1];
    FilesAfterStep(s, e, key);
    if key in s.store.files && !DeletesKey(e, key) {
      q, j := FileWasWritten(files, events, b, p - 1, key);
      StandsLonger(files, events, b, p - 1, key, q, j);
    } else {
      q, j := p - 1, e.k;
    }
  }

  /** A file that nobody deletes stays. */
  lemma {:induction false} FileStays(files: map<Key, Verdict>, events: seq<Event>, q: nat, j: nat, p: nat, key: Key)
    requires q < p <= |events| && WritesKeyAt(files, events, q, j, key) && NoDeleteBetween(events, q, p, key)
    ensures key in After(files, events, p).store.files
    decreases p
  {
    FilesAfterStep(After(files, events, p - 1), events[p - 1], key);
    if q < p - 1 {
      FileStays(files, events, q, j, p - 1, key);
    }
  }

  lemma StepKeepsJob(s: System, e: Event, k: nat)
    requires k < |s.tasks|
    ensures k < |Next(s, e).tasks| && Next(s, e).tasks[k].job == s.tasks[k].job
    ensures Active(Next(s, e), k) ==> Active(s, k)
    ensures Next(s, e).tasks[k].phase.Grading? ==> s.tasks[k].phase.Grading?
  {
  }

  lemma {:induction false} TasksStay(files: map<Key, Verdict>, events: seq<Event>, m: nat, n: nat, k: nat)
    requires m <= n <= |events| && k < |After(files, events, m).tasks|
    ensures k < |After(files, events, n).tasks|
            && After(files, events, n).tasks[k].job == After(files, events, m).tasks[k].job
    decreases n
  {
    if m < n {
      TasksStay(files, events, m, n - 1, k);
      StepKeepsJob(After(files, events, n - 1), events[n - 1], k);
    }
  }

  lemma NewTask(s: System, e: Event)
    requires |Next(s, e).tasks| > |s.tasks|
    ensures |Next(s, e).tasks| == |s.tasks| + 1 && e.Begin? && e.call.pathSlug.Some?
    ensures var job := Next(s, e).tasks[|s.tasks|].job;
            job.slug == SlugOf(e.call) && (!job.force ==> KeyOf(job) !in s.store.files)
  {
  }

  /** Every task has a call that started it; an unforced one found its verdict file missing. */
  lemma {:induction false} TaskHasStart(files: map<Key, Verdict>, events: seq<Event>, n: nat, k: nat) returns (b: nat)
    requires n <= |events| && k < |After(files, events, n).tasks|
    ensures b < n && StartsAt(files, events, b, k)
    ensures var job := After(files, events, n).tasks[k].job;
            !job.force ==> KeyOf(job) !in After(files, events, b).store.files
  {
    if k < |After(files, events, n - 1).tasks| {
      b := TaskHasStart(files, events, n - 1, k);
      TasksStay(files, events, n - 1, n, k);
    } else {
      NewTask(After(files, events, n - 1), events[n - 1]);
      b := n - 1;
    }
  }

  lemma OverwritesAfterStep(s: System, e: Event, k: nat)
    ensures k in Next(s, e).overwrites <==>
            k in s.overwrites
            || (e.Persist? && e.k == k && e.disk.Written? && k < |s.tasks| && s.tasks[k].phase.Grading?
                && KeyOf(s.tasks[k].job) in s.store.files)
  {
  }

  /** A call overwrites exactly when the file is there as it writes it. */
  lemma {:induction false} OverwritesAre(files: map<Key, Verdict>, events: seq<Event>, n: nat, k: nat)
    requires n <= |events|
    ensures k in After(files, events, n).overwrites <==>
            exists p {:trigger WritesAt(files, events, p, k)} :: 0 <= p < n && WritesAt(files, events, p, k)
              && KeyOf(After(files, events, p).tasks[k].job) in After(files, events, p).store.files
  {
    if n > 0 {
      OverwritesAre(files, events, n - 1, k);
      OverwritesAfterStep(After(files, events, n - 1), events[n - 1], k);
      assert WritesAt(files, events, n - 1, k) <==>
             var s, e := After(files, events, n - 1), events[n - 1];
             e.Persist? && e.k == k && e.disk.Written? && k < |s.tasks| && s.tasks[k].phase.Grading?;
    }
  }

  /** Task `k` starts at event `b` and writes its file at `p`, and in between another call
      writes the same file at `q`, which nobody deletes from then on. */
  ghost predicate Collides(files: map<Key, Verdict>, events: seq<Event>, k: nat, key: Key, b: nat, q: nat, j: nat,
      p: nat) {
    && b < q < p < |events| && j != k
    && StartsAt(files, events, b, k) && WritesAt(files, events, p, k)
    && WritesKeyAt(files, events, q, j, key) && NoDeleteBetween(events, q, p, key)
  }

  lemma WriterIsDone(files: map<Key, Verdict>, events: seq<Event>, q: nat, p: nat, k: nat)
    requires q < p < |events| && WritesAt(files, events, q, k)
    ensures !WritesAt(files, events, p, k)
  {
    NotGradingAgain(files, events, q + 1, p, k);
  }

  lemma {:induction false} NotGradingAgain(files: map<Key, Verdict>, events: seq<Event>, m: nat, n: nat, k: nat)
    requires m <= n <= |events| && k < |After(files, events, m).tasks|
             && !After(files, events, m).tasks[k].phase.Grading?
    ensures k < |After(files, events, n).tasks| && !After(files, events, n).tasks[k].phase.Grading?
    decreases n
  {
    if m < n {
      NotGradingAgain(files, events, m, n - 1, k);
      StepKeepsJob(After(files, events, n - 1), events[n - 1], k);
    }
  }

  lemma WriteCollides(files: map<Key, Verdict>, events: seq<Event>, p: nat, k: nat) returns (b: nat, q: nat, j: nat)
    requires WritesAt(files, events, p, k) && !After(files, events, p).tasks[k].job.force
    requires KeyOf(After(files, events, p).tasks[k].job) in After(files, events, p).store.files
    ensures Collides(files, events, k, KeyOf(After(files, events, p).tasks[k].job), b, q, j, p)
  {
    var key := KeyOf(After(files, events, p).tasks[k].job);
    b := TaskHasStart(files, events, p, k);
    q, j := FileWasWritten(files, events, b, p, key);
    if j == k {
      WriterIsDone(files, events, q, p, k);
    }
    assert !events[b].Persist?;
  }

  lemma OverwriteCollides(files: map<Key, Verdict>, events: seq<Event>, k: nat) returns (b: nat, q: nat, j: nat, p: nat)
    requires k in Run(files, events).overwrites && k < |Run(files, events).tasks|
             && !Run(files, events).tasks[k].job.force
    ensures Collides(files, events, k, KeyOf(Run(files, events).tasks[k].job), b, q, j, p)
  {
    OverwritesAre(files, events, |events|, k);
    p :| 0 <= p < |events| && WritesAt(files, events, p, k)
        && KeyOf(After(files, events, p).tasks[k].job) in After(files, events, p).store.files;
    TasksStay(files, events, p, |events|, k);
    b, q, j := WriteCollides(files, events, p, k);
  }

  lemma CollisionOverwrites(files: map<Key, Verdict>, events: seq<Event>, k: nat, b: nat, q: nat, j: nat, p: nat)
    requires k < |Run(files, events).tasks| && !Run(files, events).tasks[k].job.force
    requires Collides(files, events, k, KeyOf(Run(files, events).tasks[k].job), b, q, j, p)
    ensures k in Run(files, events).overwrites
  {
    var key := KeyOf(Run(files, events).tasks[k].job);
    TasksStay(files, events, p, |events|, k);
    FileStays(files, events, q, j, p, key);
    OverwritesAre(files, events, |events|, k);
  }

  /** An unforced call overwrites a verdict file if and only if, between its start and its own
      write, another call has written the file of the same slug and iteration, and nobody has
      deleted it again. */
  lemma OverwriteIff(files: map<Key, Verdict>, events: seq<Event>, k: nat)
    requires k < |Run(files, events).tasks| && !Run(files, events).tasks[k].job.force
    ensures k in Run(files, events).overwrites <==>
            exists b, q, j, p {:trigger Collides(files, events, k, KeyOf(Run(files, events).tasks[k].job), b, q, j,
                p)} ::
              Collides(files, events, k, KeyOf(Run(files, events).tasks[k].job), b, q, j, p)
  {
    if k in Run(files, events).overwrites {
      var b, q, j, p := OverwriteCollides(files, events, k);
    }
    if b, q, j, p :| Collides(files, events, k, KeyOf(Run(files, events).tasks[k].job), b, q, j, p) {
      CollisionOverwrites(files, events, k, b, q, j, p);
    }
  }

  lemma {:induction false} ActiveUntil(files: map<Key, Verdict>, events: seq<Event>, m: nat, n: nat, k: nat)
    requires m <= n <= |events| && k < |After(files, events, m).tasks|
    requires k < |After(files, events, n).tasks| && Active(After(files, events, n), k)
    ensures Active(After(files, events, m), k)
    decreases n
  {
    if m < n {
      TasksStay(files, events, m, n - 1, k);
      StepKeepsJob(After(files, events, n - 1), events[n - 1], k);
      ActiveUntil(files, events, m, n - 1, k);
    }
  }

  /** So no unforced call on a slug overwrites a verdict file, unless a forced call on the slug
      comes while another one is in flight. */
  lemma UnforcedCallsNeverOverwrite(files: map<Key, Verdict>, events: seq<Event>, k: nat)
    requires k < |Run(files, events).tasks| && !Run(files, events).tasks[k].job.force
    requires !Disturbed(files, events, Run(files, events).tasks[k].job.slug)
    ensures k !in Run(files, events).overwrites
  {
    if k in Run(files, events).overwrites {
      var slug := Run(files, events).tasks[k].job.slug;
      var b, q, j, p := OverwriteCollides(files, events, k);
      var s := After(files, events, q);
      TasksStay(files, events, b + 1, q, k);
      TasksStay(files, events, q, |events|, k);
      ActiveUntil(files, events, q, p, k);
      UndisturbedIsExclusive(files, events, slug, q);
      assert ActiveOn(s, slug, k) && ActiveOn(s, slug, j);
    }
  }

  // ---- What was answered ------------------------------------------------------------------

  /** The verdict is the answer given, word for word, but for one case: a call for another
      revision at or above the cap says that the iterations are used up. */
  predicate Follows(verdict: Verdict, job: Job, answer: Status) {
    && verdict.iteration == job.iteration
    && verdict.status ==
       match answer
       case NeedsRevision => if job.iteration as real < job.cap then NeedsRevision else MaxIterationsReached
       case _ => answer
  }

  /** At event `p` task `k` got its answer, and the write of its file did not fail for good. */
  predicate AnswersAt(files: map<Key, Verdict>, events: seq<Event>, p: nat, k: nat) {
    && p < |events| && events[p].Persist? && events[p].k == k && !events[p].disk.WriteError?
    && k < |After(files, events, p).tasks| && After(files, events, p).tasks[k].phase.Grading?
  }

  lemma StepPersists(s: System, e: Event, k: nat)
    requires k < |Next(s, e).tasks| && Next(s, e).tasks[k].phase.Persisted?
    ensures k < |s.tasks| && Next(s, e).tasks[k].job == s.tasks[k].job
    ensures if s.tasks[k].phase.Persisted? then Next(s, e).tasks[k] == s.tasks[k]
            else && s.tasks[k].phase.Grading? && e.Persist? && e.k == k && !e.disk.WriteError?
                 && Follows(Next(s, e).tasks[k].phase.verdict, s.tasks[k].job, e.status)
                 && Next(s, e).tasks[k].phase.verdict.persisted == Some(e.disk.Written?)
  {
  }

  lemma {:induction false} PersistedAnswer(files: map<Key, Verdict>, events: seq<Event>, n: nat, k: nat)
      returns (p: nat)
    requires n <= |events| && k < |After(files, events, n).tasks| && After(files, events, n).tasks[k].phase.Persisted?
    ensures p < n && AnswersAt(files, events, p, k)
    ensures var task := After(files, events, n).tasks[k];
            && Follows(task.phase.verdict, task.job, events[p].status)
            && task.phase.verdict.persisted == Some(events[p].disk.Written?)
  {
    var s, e := After(files, events, n - 1), events[n - 1];
    StepPersists(s, e, k);
    if s.tasks[k].phase.Persisted? {
      p := PersistedAnswer(files, events, n - 1, k);
    } else {
      p := n - 1;
    }
  }

  /** Every grade ever recorded is what its grader answered, except that a call for another
      revision at or above the cap is recorded as iterations used up; and it says whether its
      verdict file was written. */
  lemma {:induction false} RecordedAnswer(files: map<Key, Verdict>, events: seq<Event>, n: nat, i: nat)
      returns (p: nat, k: nat)
    requires n <= |events| && i < |After(files, events, n).recorded|
    ensures p < n && AnswersAt(files, events, p, k)
    ensures var grade := After(files, events, n).recorded[i];
            && grade.job == After(files, events, p).tasks[k].job
            && Follows(grade.verdict, grade.job, events[p].status)
            && grade.verdict.persisted == Some(events[p].disk.Written?)
  {
    var s, e := After(files, events, n - 1), events[n - 1];
    if i < |s.recorded| {
      p, k := RecordedAnswer(files, events, n - 1, i);
    } else {
      k := e.k;
      p := PersistedAnswer(files, events, n - 1, k);
      TasksStay(files, events, p, n - 1, k);
    }
  }

  /** The newest write of a file, with nobody deleting it since. */
  ghost predicate NewestWrite(files: map<Key, Verdict>, events: seq<Event>, q: nat, j: nat, p: nat, key: Key)
    requires p <= |events|
  {
    && q < p && WritesKeyAt(files, events, q, j, key) && NoDeleteBetween(events, q, p, key)
    && forall r, i {:trigger WritesKeyAt(files, events, r, i, key)} :: q < r < p ==>
        !WritesKeyAt(files, events, r, i, key)
  }

  lemma StepKeepsFile(s: System, e: Event, key: Key)
    requires key in s.store.files && !DeletesKey(e, key)
    requires !(e.Persist? && e.disk.Written? && e.k < |s.tasks| && s.tasks[e.k].phase.Grading?
             && KeyOf(s.tasks[e.k].job) == key)
    ensures key in Next(s, e).store.files && Next(s, e).store.files[key] == s.store.files[key]
  {
  }

  /** A verdict file holds the same: the answer given in the call that wrote it last. */
  lemma {:induction false} FileHoldsAnswer(files: map<Key, Verdict>, events: seq<Event>, q: nat, j: nat, p: nat,
      key: Key)
    requires p <= |events| && NewestWrite(files, events, q, j, p, key)
    ensures key in After(files, events, p).store.files
    ensures Follows(After(files, events, p).store.files[key], After(files, events, q).tasks[j].job, events[q].status)
    decreases p
  {
    if q < p - 1 {
      FileHoldsAnswer(files, events, q, j, p - 1, key);
      var s, e := After(files, events, p - 1), events[p - 1];
      assert e.Persist? ==> !WritesKeyAt(files, events, p - 1, e.k, key);
      StepKeepsFile(s, e, key);
    }
  }

  // ---- Calls in turn -------------------------------------------------------------------------

  /** A call starts while another one, on whatever slug, is in flight. */
  predicate OverlapsAt(files: map<Key, Verdict>, events: seq<Event>, b: nat) {
    && b < |events| && |After(files, events, b + 1).tasks| > |After(files, events, b).tasks|
    && exists k {:trigger Active(After(files, events, b), k)} :: 0 <= k < |After(files, events, b).tasks|
        && Active(After(files, events, b), k)
  }

  predicate TakesTurns(files: map<Key, Verdict>, events: seq<Event>) {
    forall b {:trigger OverlapsAt(files, events, b)} :: 0 <= b < |events| ==> !OverlapsAt(files, events, b)
  }

  /** What was recorded when the one call in flight began is still all there is. */
  ghost predicate InTurn(s: System) {
    && (forall i, j {:trigger Active(s, i), Active(s, j)} ::
          0 <= i < |s.tasks| && 0 <= j < |s.tasks| && Active(s, i) && Active(s, j) ==> i == j)
    && (forall k {:trigger Active(s, k)} :: 0 <= k < |s.tasks| && Active(s, k) ==> s.tasks[k].job.begun == |s.recorded|)
    && (forall i {:trigger s.recorded[i]} :: 0 <= i < |s.recorded| ==> s.recorded[i].job.begun == i)
  }

  lemma StepKeepsTurns(s: System, e: Event)
    requires InTurn(s)
    requires |Next(s, e).tasks| > |s.tasks| ==> forall k {:trigger Active(s, k)} :: 0 <= k < |s.tasks| ==> !Active(s, k)
    ensures InTurn(Next(s, e))
  {
    var t := Next(s, e);
    forall k | 0 <= k < |t.tasks|
      ensures k < |s.tasks| ==> t.tasks[k].job == s.tasks[k].job && (Active(t, k) ==> Active(s, k))
      ensures Active(t, k) ==> t.tasks[k].job.begun == |t.recorded|
    {
      assert e.Record? && e.k < |s.tasks| && s.tasks[e.k].phase.Persisted? ==> Active(s, e.k);
      assert k < |s.tasks| && Active(t, k) ==> Active(s, k);
    }
    assert e.Record? && e.k < |s.tasks| && s.tasks[e.k].phase.Persisted? ==> Active(s, e.k);
  }

  lemma {:induction false} RunsTakeTurns(files: map<Key, Verdict>, events: seq<Event>, n: nat)
    requires TakesTurns(files, events) && n <= |events|
    ensures InTurn(After(files, events, n))
  {
    if n > 0 {
      RunsTakeTurns(files, events, n - 1);
      assert !OverlapsAt(files, events, n - 1);
      StepKeepsTurns(After(files, events, n - 1), events[n - 1]);
    }
  }

  /** In any run whose calls do not overlap, forced or not and on whatever plans, the k-th
      recorded grade has iteration min(k, 6): the history stops growing at five. */
  lemma KthGradeHasIterationK(files: map<Key, Verdict>, events: seq<Event>, i: nat)
    requires TakesTurns(files, events) && i < |Run(files, events).recorded|
    ensures Run(files, events).recorded[i].verdict.iteration == Smaller(i + 1, 6)
  {
    RunsTakeTurns(files, events, |events|);
    IterationIsPositionIff(files, events, i);
  }

  ghost predicate OnlySlug(events: seq<Event>, slug: string) {
    forall i {:trigger events[i]} :: 0 <= i < |events| && events[i].Begin? && events[i].call.pathSlug.Some? ==>
        SlugOf(events[i].call) == slug
  }

  lemma {:induction false} TasksAreOnSlug(files: map<Key, Verdict>, events: seq<Event>, slug: string, n: nat, k: nat)
    requires OnlySlug(events, slug) && n <= |events| && k < |After(files, events, n).tasks|
    ensures After(files, events, n).tasks[k].job.slug == slug
  {
    if k < |After(files, events, n - 1).tasks| {
      TasksAreOnSlug(files, events, slug, n - 1, k);
      TasksStay(files, events, n - 1, n, k);
    } else {
      NewTask(After(files, events, n - 1), events[n - 1]);
    }
  }

  /** With one plan the lock makes calls take turns, unless a forced one comes between. */
  lemma OnePlanTakesTurns(files: map<Key, Verdict>, events: seq<Event>, slug: string)
    requires OnlySlug(events, slug) && !Disturbed(files, events, slug)
    ensures TakesTurns(files, events)
  {
    forall b | 0 <= b < |events| ensures !OverlapsAt(files, events, b) {
      if OverlapsAt(files, events, b) {
        var s := After(files, events, b);
        var k :| 0 <= k < |s.tasks| && Active(s, k);
        TasksAreOnSlug(files, events, slug, b, k);
        UndisturbedIsExclusive(files, events, slug, b);
        assert ActiveOn(s, slug, k) && !DisturbsAt(files, events, slug, b);
      }
    }
  }

  // ---- Six grades at most ----------------------------------------------------------------------

  /** The verdict file of every grade is there, and no call has begun after the sixth grade. */
  ghost predicate FilesKept(s: System, slug: string) {
    && |s.recorded| <= 6
    && (forall i {:trigger s.recorded[i]} :: 0 <= i < |s.recorded| ==>
        (slug, s.recorded[i].verdict.iteration) in s.store.files)
    && (forall k {:trigger s.tasks[k]} :: 0 <= k < |s.tasks| ==>
          s.tasks[k].job.begun <= 5 && s.tasks[k].job.slug == slug
          && (s.tasks[k].phase.Persisted? ==> (slug, s.tasks[k].job.iteration) in s.store.files))
  }

  /** Every verdict file is written and none is deleted. */
  ghost predicate NothingLost(events: seq<Event>) {
    forall i {:trigger events[i]} :: 0 <= i < |events| ==>
        !events[i].Delete? && (events[i].Persist? ==> events[i].disk.Written?)
  }

  lemma SeventhCallIsRefused(s: System, call: Call, slug: string)
    requires Inv(s) && InTurn(s) && FilesKept(s, slug) && |s.recorded| == 6
    requires call.pathSlug.Some? ==> SlugOf(call) == slug && (call.skipped || !call.force)
    ensures !BeginResult(s.store, call).Started?
  {
    assert GradeFits(s, 5);
    assert (slug, s.recorded[5].verdict.iteration) in s.store.files;
    assert |s.store.history| == 5;
  }

  lemma BeginKeepsFiles(s: System, call: Call, slug: string)
    requires Inv(s) && InTurn(s) && FilesKept(s, slug)
    requires call.pathSlug.Some? ==> SlugOf(call) == slug && (call.skipped || !call.force)
    ensures FilesKept(Begun(s, call), slug)
  {
    if |s.recorded| == 6 {
      SeventhCallIsRefused(s, call, slug);
    }
  }

  lemma RecordKeepsFiles(s: System, k: nat, slug: string)
    requires Inv(s) && InTurn(s) && FilesKept(s, slug) && k < |s.tasks| && s.tasks[k].phase.Persisted?
    ensures FilesKept(RecordDone(s, k), slug)
  {
    assert Active(s, k) && TaskFits(s, k);
  }

  lemma PersistKeepsFiles(s: System, k: nat, status: Status, slug: string)
    requires FilesKept(s, slug) && k < |s.tasks| && s.tasks[k].phase.Grading?
    ensures FilesKept(PersistDone(s, k, status, Written), slug)
  {
  }

  /** Calls that end without a grade write nothing. */
  lemma StopKeepsFiles(s: System, e: Event, slug: string)
    requires FilesKept(s, slug) && (e.GiveUp? || e.Crash?)
    ensures FilesKept(Next(s, e), slug)
  {
  }

  lemma StepKeepsFiles(s: System, e: Event, slug: string)
    requires Inv(s) && InTurn(s) && FilesKept(s, slug)
    requires !e.Delete? && (e.Persist? ==> e.disk.Written?)
    requires e.Begin? && e.call.pathSlug.Some? ==> SlugOf(e.call) == slug && (e.call.skipped || !e.call.force)
    ensures FilesKept(Next(s, e), slug)
  {
    match e
    case Begin(call) => BeginKeepsFiles(s, call, slug);
    case Persist(k, status, _) => if k < |s.tasks|
        && s.tasks[k].phase.Grading? { PersistKeepsFiles(s, k, status, slug); }
    case Record(k) => if k < |s.tasks| && s.tasks[k].phase.Persisted? { RecordKeepsFiles(s, k, slug); }
    case GiveUp(_) => StopKeepsFiles(s, e, slug);
    case Crash => StopKeepsFiles(s, e, slug);
  }

  lemma EventFits(events: seq<Event>, slug: string, i: nat)
    requires OnlySlug(events, slug) && Unforced(events, slug) && NothingLost(events) && i < |events|
    ensures var e := events[i];
            && !e.Delete? && (e.Persist? ==> e.disk.Written?)
            && (e.Begin? && e.call.pathSlug.Some? ==> SlugOf(e.call) == slug && (e.call.skipped || !e.call.force))
  {
    assert CallsOn(events[i], slug) ==> !events[i].call.force;
  }

  lemma {:induction false} RunKeepsFiles(files: map<Key, Verdict>, events: seq<Event>, slug: string, n: nat)
    requires OnlySlug(events, slug) && Unforced(events, slug) && NothingLost(events) && TakesTurns(files, events)
             && n <= |events|
    ensures FilesKept(After(files, events, n), slug)
  {
    if n > 0 {
      RunKeepsFiles(files, events, slug, n - 1);
      RunKeepsInv(files, events, n - 1);
      RunsTakeTurns(files, events, n - 1);
      EventFits(events, slug, n - 1);
      StepKeepsFiles(After(files, events, n - 1), events[n - 1], slug);
    }
  }

  /** On one plan, without forced calls, lost writes or deleted files, at most six grades are
      ever recorded: from then on every call finds the file of iteration six. */
  lemma AtMostSixGrades(files: map<Key, Verdict>, events: seq<Event>, slug: string)
    requires OnlySlug(events, slug) && Unforced(events, slug) && NothingLost(events)
    ensures |Run(files, events).recorded| <= 6
  {
    forall b | 0 <= b < |events| ensures !DisturbsAt(files, events, slug, b) {}
    OnePlanTakesTurns(files, events, slug);
    RunKeepsFiles(files, events, slug, |events|);
  }

  // ---- What does go wrong otherwise ------------------------------------------------------

  /** Two plans graded at once share one history, so both of their grades are the first. */
  lemma TwoPlansShareIterations(a: string, b: string)
    requires a != b
    ensures var two := Next(Next(Fresh(map[]), Plain(a, false)), Plain(b, false));
            && |two.tasks| == 2 && two.tasks[0].phase.Grading? && two.tasks[1].phase.Grading?
            && two.tasks[0].job.iteration == two.tasks[1].job.iteration == 1
  {
  }

  /** A call that is forced while another is in flight takes its verdict file away from
      it: the unforced call overwrites what the forced one wrote. */
  lemma ForcedCallIsOverwritten(slug: string)
    ensures var two := Next(Next(Fresh(map[]), Plain(slug, false)), Plain(slug, true));
            var done := Next(Next(two, Persist(1, Satisfied, Written)), Persist(0, Failed, Written));
            && done.overwrites == [0] && !done.tasks[0].job.force
            && (slug, 1) in done.store.files && done.store.files[(slug, 1)].status == Failed
  {
    var two := Next(Next(Fresh(map[]), Plain(slug, false)), Plain(slug, true));
    assert two.tasks[0].job == Job(slug, false, 1, 3.0, 0) && two.tasks[1].job == Job(slug, true, 1, 3.0, 0);
    var one := Next(two, Persist(1, Satisfied, Written));
    assert (slug, 1) in one.store.files && one.overwrites == [] && one.tasks[0] == two.tasks[0];
  }

  /** When a forced call ends first, the lock of the unforced one is gone with it. */
  lemma ForcedCallDropsLock(slug: string)
    ensures var two := Next(Next(Fresh(map[]), Plain(slug, false)), Plain(slug, true));
            var three := Next(Next(two, GiveUp(1)), Plain(slug, false));
            && |three.tasks| == 3 && ActiveOn(three, slug, 0) && ActiveOn(three, slug, 2)
  {
    var two := Next(Next(Fresh(map[]), Plain(slug, false)), Plain(slug, true));
    assert |two.tasks| == 2 && two.store.files == map[];
    var one := Next(two, GiveUp(1));
    assert slug !in one.store.locks && one.tasks[0] == two.tasks[0];
  }
}
