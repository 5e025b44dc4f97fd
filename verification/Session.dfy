/** Tuning sessions as values: how each trial went, what that leaves behind, and what holds over whole sessions. */
module Sessions {
  import opened JsonValues
  import opened PatchAlgebra
  import opened Args
  import opened Words
  import opened Adapters
  import opened Trials
  import opened Memory
  import opened Cluster

  // ----- How one trial went

  /** How a wait for readiness ended; an interrupted one saw a stop come. */
  datatype Readiness = Ready | NotReady | ReadyRaised | Interrupted

  /** A poll after which the wait goes on: not broken, and no resource that says it is ready. */
  predicate GoesOn(q: Request) {
    q.Got? && !q.reply.Broken? && !(q.reply.Done? && IsReady(q.reply.body))
  }

  /**
   * The polls of one wait for readiness. It ends at the first resource that says it is ready, escapes at the first
   * broken reply, and is not ready when all polls went on; a stop may end it earlier, or take readiness back.
   */
  predicate Polls(gets: seq<Request>, r: Readiness) {
    && (forall i | 0 <= i < |gets| - 1 :: GoesOn(gets[i]))
    && (if gets == [] then r.Interrupted?
        else
          var last := gets[|gets| - 1];
          && last.Got?
          && match r
             case Ready => last.reply.Done? && IsReady(last.reply.body)
             case ReadyRaised => last.reply.Broken?
             case NotReady => GoesOn(last)
             case Interrupted => !last.reply.Broken?)
  }

  /** The resource that a successful wait saw ready. */
  function SeenReady(gets: seq<Request>): Json {
    if gets != [] && gets[|gets| - 1].Got? && gets[|gets| - 1].reply.Done?
    then CleanForCreate(gets[|gets| - 1].reply.body)
    else Null
  }

  datatype Course =
    | Unapplied
    | NotApplied(apply: ApplyRun)
    | Cancelled(apply: ApplyRun, polls: seq<Request>)
    | WaitRaised(apply: ApplyRun, polls: seq<Request>)
    | RollbackRaised(apply: ApplyRun, polls: seq<Request>, rollback: RollbackRun)
    | BootFailed(apply: ApplyRun, polls: seq<Request>, rollback: RollbackRun, diagnoses: seq<Diagnosis>)
    | RunFailed(apply: ApplyRun, polls: seq<Request>, diagnoses: seq<Diagnosis>)
    | Measured(apply: ApplyRun, polls: seq<Request>, run: RunResult, pruned: bool)

  /** One asked trial: its parameters, the deployed resource when it was asked for, and its course. */
  datatype Attempt = Attempt(id: nat, params: Params, held: Option<Json>, course: Course)

  /** What a session runs on. */
  datatype Setting = Setting(
    kind: CrKind, realText: real -> string, available: bool, model: Model, slaMs: int, maxModelLen: int)

  /** Parameters that must not be applied. */
  predicate Unfit(p: Params, m: Model, limits: seq<Limit>) {
    OomRisk(m, p) || !Admitted(p, limits)
  }

  function KeptOf(a: Attempt): Json {
    if a.held.Some? then a.held.value else Null
  }

  /** The resource with the trial's parameters. */
  function ModifiedOf(a: Attempt, s: Setting): Json {
    if a.held.Some? && WellShaped(s.kind, a.held.value)
    then Applied(s.kind, a.held.value, ParamsEntries(a.params, s.realText))
    else Null
  }

  predicate AppliesTo(a: Attempt, run: ApplyRun, s: Setting) {
    && Applies(run) && (run.Unavailable? <==> !s.available)
    && (|| run.Unavailable? || run.NotRead?
        || (a.held == Some(CleanForCreate(run.read)) && WellShaped(s.kind, a.held.value)))
  }

  predicate Goes(a: Attempt, s: Setting) {
    match a.course
    case Unapplied => true
    case NotApplied(run) => AppliesTo(a, run, s) && !run.Recreated?
    case Cancelled(run, polls) => AppliesTo(a, run, s) && run.Recreated? && Polls(polls, Interrupted)
    case WaitRaised(run, polls) => AppliesTo(a, run, s) && run.Recreated? && Polls(polls, ReadyRaised)
    case RollbackRaised(run, polls, back) =>
      AppliesTo(a, run, s) && run.Recreated? && Polls(polls, NotReady) && RollsBack(back) && OutcomeOf(back).Raised?
    case BootFailed(run, polls, back, _) =>
      && AppliesTo(a, run, s) && run.Recreated? && Polls(polls, NotReady)
      && RollsBack(back) && !back.NothingToRestore? && !OutcomeOf(back).Raised?
    case RunFailed(run, polls, _) =>
      AppliesTo(a, run, s) && run.Recreated? && Polls(polls, Ready) && SeenReady(polls) == ModifiedOf(a, s)
    case Measured(run, polls, result, _) =>
      && AppliesTo(a, run, s) && run.Recreated? && Polls(polls, Ready) && SeenReady(polls) == ModifiedOf(a, s)
      && Tps(result) >= 0.0
  }

  /** The trial ends the session: it could not be applied, was cancelled, or an exception escaped. */
  predicate Ends(c: Course) {
    c.NotApplied? || c.Cancelled? || c.WaitRaised? || c.RollbackRaised?
  }

  /** The resource deployed after a trial that does not end the session. */
  predicate Follows(a: Attempt, s: Setting, held: Option<Json>) {
    match a.course
    case Unapplied => held == a.held
    case BootFailed(_, _, back, _) => OutcomeOf(back).RolledBack? ==> held == a.held
    case RunFailed(_, _, _) => held == Some(ModifiedOf(a, s))
    case Measured(_, _, _, _) => held == Some(ModifiedOf(a, s))
    case _ => true
  }

  // ----- What one trial asks of others, and what it leaves behind

  function RequestsOf(a: Attempt, s: Setting): seq<Request> {
    var kept, modified := KeptOf(a), ModifiedOf(a, s);
    match a.course
    case Unapplied => []
    case NotApplied(run) => ApplyRequests(run, modified, kept)
    case Cancelled(run, polls) => ApplyRequests(run, modified, kept) + polls
    case WaitRaised(run, polls) => ApplyRequests(run, modified, kept) + polls
    case RollbackRaised(run, polls, back) => ApplyRequests(run, modified, kept) + polls + RollbackRequests(back, kept)
    case BootFailed(run, polls, back, _) => ApplyRequests(run, modified, kept) + polls + RollbackRequests(back, kept)
    case RunFailed(run, polls, _) => ApplyRequests(run, modified, kept) + polls
    case Measured(run, polls, _, _) => ApplyRequests(run, modified, kept) + polls
  }

  datatype Verdict = Value(score: real) | TrialPruned | TrialFailed

  /** What the session has of the study, the load engine and the boot logs. */
  datatype Event =
    | Asked(trial: nat, params: Params)
    | Ran(result: Option<RunResult>, pruned: bool)
    | Diagnosed(diagnoses: seq<Diagnosis>)
    | Told(trial: nat, verdict: Verdict)

  function ScoreOf(run: RunResult, slaMs: int): real {
    if slaMs >= 100 then Score(run, slaMs) else 0.0
  }

  function EventsOf(a: Attempt, s: Setting): seq<Event> {
    match a.course
    case Unapplied => [Asked(a.id, a.params), Told(a.id, TrialPruned)]
    case NotApplied(_) => [Asked(a.id, a.params), Told(a.id, TrialFailed)]
    case BootFailed(_, _, _, ds) => [Asked(a.id, a.params), Diagnosed(ds), Told(a.id, TrialFailed)]
    case RunFailed(_, _, ds) =>
      [Asked(a.id, a.params), Ran(None, false), Diagnosed(ds), Told(a.id, TrialFailed)]
    case Measured(_, _, run, pruned) =>
      [Asked(a.id, a.params), Ran(Some(run), pruned),
       Told(a.id, if pruned then TrialPruned else Value(ScoreOf(run, s.slaMs)))]
    case _ => [Asked(a.id, a.params)]
  }

  function RecordOf(a: Attempt, s: Setting): seq<Trial> {
    match a.course
    case Unapplied => [Trial(a.id, a.params, 0.0, 0.0, 0.0, Skipped)]
    case BootFailed(_, _, _, _) => [Trial(a.id, a.params, 0.0, 0.0, 0.0, Failed)]
    case RunFailed(_, _, _) => [Trial(a.id, a.params, 0.0, 0.0, 0.0, Failed)]
    case Measured(_, _, run, pruned) =>
      [Trial(a.id, a.params, Tps(run), P99(run), ScoreOf(run, s.slaMs), if pruned then Pruned else Completed)]
    case _ => []
  }

  function Diagnoses(c: Course): seq<Diagnosis> {
    match c
    case BootFailed(_, _, _, ds) => ds
    case RunFailed(_, _, ds) => ds
    case _ => []
  }

  function LessonsOf(a: Attempt): seq<Limit> {
    Lessons(Diagnoses(a.course), a.params.gpuUtil)
  }

  /** The lessons not known before, in order. */
  function News(known: seq<Limit>, lessons: seq<Limit>): seq<Limit> {
    if lessons == [] then []
    else
      var n := |lessons| - 1;
      News(known, lessons[..n]) + if lessons[n] in known then [] else [lessons[n]]
  }

  lemma {:induction false} NewsFacts(known: seq<Limit>, lessons: seq<Limit>)
    ensures forall l :: l in known + News(known, lessons) <==> l in known || l in lessons
    decreases |lessons|
  {
    if lessons != [] {
      var n := |lessons| - 1;
      NewsFacts(known, lessons[..n]);
      assert lessons == lessons[..n] + [lessons[n]];
      forall l ensures l in known + News(known, lessons) <==> l in known || l in lessons {
        assert l in known + News(known, lessons[..n]) <==> l in known || l in News(known, lessons[..n]);
      }
    }
  }

  // ----- Sessions

  function AllRequests(attempts: seq<Attempt>, s: Setting): seq<Request> {
    if attempts == [] then []
    else AllRequests(attempts[..|attempts| - 1], s) + RequestsOf(attempts[|attempts| - 1], s)
  }

  function AllEvents(attempts: seq<Attempt>, s: Setting): seq<Event> {
    if attempts == [] then []
    else AllEvents(attempts[..|attempts| - 1], s) + EventsOf(attempts[|attempts| - 1], s)
  }

  function Records(attempts: seq<Attempt>, s: Setting): seq<Trial> {
    if attempts == [] then []
    else Records(attempts[..|attempts| - 1], s) + RecordOf(attempts[|attempts| - 1], s)
  }

  function LimitsAfter(limits: seq<Limit>, attempts: seq<Attempt>): seq<Limit> {
    if attempts == [] then limits
    else
      var before := LimitsAfter(limits, attempts[..|attempts| - 1]);
      before + News(before, LessonsOf(attempts[|attempts| - 1]))
  }

  /** The number of attempts that were not skipped. */
  function Counted(attempts: seq<Attempt>): nat {
    if attempts == [] then 0
    else Counted(attempts[..|attempts| - 1]) + if attempts[|attempts| - 1].course.Unapplied? then 0 else 1
  }

  predicate FitsAt(attempts: seq<Attempt>, i: nat, limits: seq<Limit>, s: Setting)
    requires i < |attempts|
  {
    var a := attempts[i];
    && a.id == i && a.params.maxModelLen == s.maxModelLen && Goes(a, s)
    && (a.course.Unapplied? <==> Unfit(a.params, s.model, LimitsAfter(limits, attempts[..i])))
  }

  /** The trials of one session that started with these limits: only the last one may end it. */
  ghost predicate IsSession(attempts: seq<Attempt>, limits: seq<Limit>, s: Setting) {
    && (forall i: nat | i < |attempts| :: FitsAt(attempts, i, limits, s))
    && (forall i | 0 <= i < |attempts| - 1 ::
          !Ends(attempts[i].course) && Follows(attempts[i], s, attempts[i + 1].held))
  }

  predicate Goon(attempts: seq<Attempt>) {
    attempts == [] || !Ends(attempts[|attempts| - 1].course)
  }

  lemma {:induction false} SessionOneMore(attempts: seq<Attempt>, a: Attempt, limits: seq<Limit>, s: Setting)
    requires IsSession(attempts, limits, s) && Goon(attempts)
    requires attempts != [] ==> Follows(attempts[|attempts| - 1], s, a.held)
    requires a.id == |attempts| && a.params.maxModelLen == s.maxModelLen && Goes(a, s)
    requires a.course.Unapplied? <==> Unfit(a.params, s.model, LimitsAfter(limits, attempts))
    ensures IsSession(attempts + [a], limits, s)
  {
    var more := attempts + [a];
    assert more[..|attempts|] == attempts;
    hide Goes, Follows, Ends, Unfit, LimitsAfter;
    forall i: nat | i < |more| ensures FitsAt(more, i, limits, s) {
      assert more[..i] == attempts[..if i < |attempts| then i else |attempts|];
      if i < |attempts| { assert FitsAt(attempts, i, limits, s); } else { assert attempts[..i] == attempts; }
    }
    forall i | 0 <= i < |more| - 1 ensures !Ends(more[i].course) && Follows(more[i], s, more[i + 1].held) {
      if i < |attempts| - 1 { assert more[i + 1] == attempts[i + 1]; }
    }
  }

  lemma {:induction false} TotalsOneMore(attempts: seq<Attempt>, a: Attempt, limits: seq<Limit>, s: Setting)
    ensures AllRequests(attempts + [a], s) == AllRequests(attempts, s) + RequestsOf(a, s)
    ensures AllEvents(attempts + [a], s) == AllEvents(attempts, s) + EventsOf(a, s)
    ensures Records(attempts + [a], s) == Records(attempts, s) + RecordOf(a, s)
    ensures LimitsAfter(limits, attempts + [a]) ==
            LimitsAfter(limits, attempts) + News(LimitsAfter(limits, attempts), LessonsOf(a))
    ensures Counted(attempts + [a]) == Counted(attempts) + if a.course.Unapplied? then 0 else 1
  {
    assert (attempts + [a])[..|attempts|] == attempts;
    hide RequestsOf, EventsOf, RecordOf, News, LessonsOf;
  }

  // ----- Learned limits

  lemma {:induction false} LimitsStep(attempts: seq<Attempt>, limits: seq<Limit>, i: nat)
    requires i < |attempts|
    ensures var before := LimitsAfter(limits, attempts[..i]);
            LimitsAfter(limits, attempts[..i + 1]) == before + News(before, LessonsOf(attempts[i]))
  {
    var more := attempts[..i + 1];
    assert more[..|more| - 1] == attempts[..i] && more[|more| - 1] == attempts[i];
    hide News, LessonsOf;
  }

  lemma {:induction false} LimitsGrow(attempts: seq<Attempt>, limits: seq<Limit>, i: nat, j: nat)
    requires i <= j <= |attempts|
    ensures LimitsAfter(limits, attempts[..i]) <= LimitsAfter(limits, attempts[..j])
    decreases j
  {
    hide LimitsAfter, News, LessonsOf;
    if i < j {
      LimitsStep(attempts, limits, j - 1);
      LimitsGrow(attempts, limits, i, j - 1);
    }
  }

  lemma {:induction false} LessonsStay(attempts: seq<Attempt>, limits: seq<Limit>, i: nat, j: nat, l: Limit)
    requires i < j <= |attempts| && l in LessonsOf(attempts[i])
    ensures l in LimitsAfter(limits, attempts[..j])
  {
    LimitsStep(attempts, limits, i);
    hide LimitsAfter, News, LessonsOf;
    NewsFacts(LimitsAfter(limits, attempts[..i]), LessonsOf(attempts[i]));
    LimitsGrow(attempts, limits, i + 1, j);
    StaysIn(LimitsAfter(limits, attempts[..i + 1]), LimitsAfter(limits, attempts[..j]), l);
  }

  lemma StaysIn(a: seq<Limit>, b: seq<Limit>, l: Limit)
    requires a <= b && l in a
    ensures l in b
  {
    var k :| 0 <= k < |a| && a[k] == l;
    assert b[k] == l;
  }

  /**
   * Once a failed trial has taught a limit, no later trial that violates it is applied; so the failing value of the
   * parameter, or a greater one, never meets the failing utilization, or a smaller one, again.
   */
  lemma {:induction false} LessonsHeeded(
    attempts: seq<Attempt>, limits: seq<Limit>, s: Setting, i: nat, j: nat, l: Limit)
    requires IsSession(attempts, limits, s) && i < j < |attempts|
    requires l in LessonsOf(attempts[i]) && !attempts[j].course.Unapplied?
    ensures var (failed, p) := (attempts[i].params, attempts[j].params);
            && !Violates(p, l) && !OomRisk(s.model, p)
            && (l.max < ValueOf(failed, l.param) ==>
                  !(ValueOf(p, l.param) >= ValueOf(failed, l.param) && p.gpuUtil <= failed.gpuUtil))
  {
    LessonsStay(attempts, limits, i, j, l);
    assert FitsAt(attempts, j, limits, s);
    hide OomRisk, IsSession, Goes;
    if l.max < ValueOf(attempts[i].params, l.param) {
      LessonShutsOut(Diagnoses(attempts[i].course), attempts[i].params, l, attempts[j].params);
    }
  }

  /** Every diagnosis of a failed trial is heeded by every later trial that is applied. */
  lemma {:induction false} DiagnosesHeeded(
    attempts: seq<Attempt>, limits: seq<Limit>, s: Setting, i: nat, j: nat, d: Diagnosis)
    requires IsSession(attempts, limits, s) && i < j < |attempts|
    requires d in Diagnoses(attempts[i].course) && !attempts[j].course.Unapplied?
    ensures Heeds(attempts[j].params, d, attempts[i].params.gpuUtil)
  {
    var p := attempts[j].params;
    hide IsSession, OomRisk, Lessons, Heeds, Violates, Diagnoses;
    forall l | l in LessonsOf(attempts[i]) ensures !Violates(p, l) {
      LessonsHeeded(attempts, limits, s, i, j, l);
    }
    LessonsExactly(Diagnoses(attempts[i].course), attempts[i].params.gpuUtil, p);
  }

  /**
   * A trial is skipped only for a cause: it would run out of memory, violates a limit known before the session, or
   * does not heed a diagnosis of an earlier trial.
   */
  lemma {:induction false} SkippedForCause(attempts: seq<Attempt>, limits: seq<Limit>, s: Setting, j: nat)
    requires IsSession(attempts, limits, s) && j < |attempts|
    ensures var p := attempts[j].params;
            attempts[j].course.Unapplied? <==>
            || OomRisk(s.model, p) || !Admitted(p, limits)
            || !HeedsAll(p, attempts[..j])
  {
    var p := attempts[j].params;
    assert FitsAt(attempts, j, limits, s);
    hide IsSession, OomRisk, HeedsAll, Admitted, LimitsAfter, Goes;
    AdmittedAfter(attempts[..j], limits, p);
  }

  lemma AdmittedNews(p: Params, known: seq<Limit>, lessons: seq<Limit>)
    ensures Admitted(p, known + News(known, lessons)) <==> Admitted(p, known) && Admitted(p, lessons)
  {
    NewsFacts(known, lessons);
    hide News, Violates;
  }

  /** The parameters heed every diagnosis of these attempts. */
  ghost predicate HeedsAll(p: Params, attempts: seq<Attempt>) {
    forall i, d | 0 <= i < |attempts| && d in Diagnoses(attempts[i].course) ::
      Heeds(p, d, attempts[i].params.gpuUtil)
  }

  lemma HeedsOneMore(p: Params, attempts: seq<Attempt>, a: Attempt)
    ensures HeedsAll(p, attempts + [a]) <==>
            HeedsAll(p, attempts) && forall d | d in Diagnoses(a.course) :: Heeds(p, d, a.params.gpuUtil)
  {
    hide Heeds, Diagnoses;
    var more := attempts + [a];
    assert more[|attempts|] == a && forall i | 0 <= i < |attempts| :: more[i] == attempts[i];
    if HeedsAll(p, more) {
      forall i, d | 0 <= i < |attempts| && d in Diagnoses(attempts[i].course)
        ensures Heeds(p, d, attempts[i].params.gpuUtil)
      {
        assert d in Diagnoses(more[i].course);
      }
    }
  }

  lemma {:induction false} AdmittedAfter(attempts: seq<Attempt>, limits: seq<Limit>, p: Params)
    ensures Admitted(p, LimitsAfter(limits, attempts)) <==> Admitted(p, limits) && HeedsAll(p, attempts)
    decreases |attempts|
  {
    if attempts != [] {
      var n := |attempts| - 1;
      var a, before := attempts[n], LimitsAfter(limits, attempts[..n]);
      AdmittedAfter(attempts[..n], limits, p);
      HeedsOneMore(p, attempts[..n], a);
      assert attempts == attempts[..n] + [a];
      assert LimitsAfter(limits, attempts) == before + News(before, LessonsOf(a));
      LessonsExactly(Diagnoses(a.course), a.params.gpuUtil, p);
      AdmittedNews(p, before, LessonsOf(a));
      hide LimitsAfter, News, Lessons, Heeds, Admitted, Diagnoses, HeedsAll;
    }
  }

  /** Limits known before the session are heeded from its first trial on. */
  lemma {:induction false} KnownLimitsHeeded(attempts: seq<Attempt>, limits: seq<Limit>, s: Setting, j: nat, l: Limit)
    requires IsSession(attempts, limits, s) && j < |attempts| && l in limits && !attempts[j].course.Unapplied?
    ensures !Violates(attempts[j].params, l)
  {
    assert attempts[..0] == [];
    LimitsGrow(attempts, limits, 0, j);
    assert FitsAt(attempts, j, limits, s);
  }

  // ----- Records and tells

  lemma RecordOfOne(a: Attempt, s: Setting)
    ensures |RecordOf(a, s)| == if Ends(a.course) then 0 else 1
    ensures !Ends(a.course) ==> RecordOf(a, s)[0].id == a.id && RecordOf(a, s)[0].params == a.params
    ensures !Ends(a.course) ==> (RecordOf(a, s)[0].status.Skipped? <==> a.course.Unapplied?)
    ensures !Ends(a.course) ==> (RecordOf(a, s)[0].status.Completed? <==> a.course.Measured? && !a.course.pruned)
  {
  }

  /** Every attempt is recorded, in order, by one record of its own; a last one that ended the session is not. */
  lemma {:induction false} RecordsAt(attempts: seq<Attempt>, limits: seq<Limit>, s: Setting)
    requires IsSession(attempts, limits, s)
    ensures |Records(attempts, s)| == if Goon(attempts) then |attempts| else |attempts| - 1
    ensures forall k | 0 <= k < |Records(attempts, s)| :: [Records(attempts, s)[k]] == RecordOf(attempts[k], s)
    decreases |attempts|
  {
    hide RecordOf, Goes, Follows, Ends;
    if attempts != [] {
      var n := |attempts| - 1;
      SessionPrefix(attempts, limits, s, n);
      RecordsAt(attempts[..n], limits, s);
      RecordOfOne(attempts[n], s);
      assert Goon(attempts[..n]);
    }
  }

  lemma {:induction false} SessionPrefix(attempts: seq<Attempt>, limits: seq<Limit>, s: Setting, n: nat)
    requires IsSession(attempts, limits, s) && n <= |attempts|
    ensures IsSession(attempts[..n], limits, s) && (n < |attempts| ==> Goon(attempts[..n]))
  {
    var init := attempts[..n];
    hide Goes, Follows, Ends, Unfit;
    forall i: nat | i < |init| ensures FitsAt(init, i, limits, s) {
      assert FitsAt(attempts, i, limits, s);
      assert init[..i] == attempts[..i];
    }
    forall i | 0 <= i < |init| - 1 ensures !Ends(init[i].course) && Follows(init[i], s, init[i + 1].held) {
      assert !Ends(attempts[i].course) && Follows(attempts[i], s, attempts[i + 1].held);
    }
    if 0 < n < |attempts| { assert !Ends(attempts[n - 1].course); }
  }

  /** The trials told, in order. */
  function Tells(events: seq<Event>): seq<nat> {
    if events == [] then []
    else
      var n := |events| - 1;
      Tells(events[..n]) + if events[n].Told? then [events[n].trial] else []
  }

  lemma {:induction false} TellsOf(events: seq<Event>, more: seq<Event>)
    ensures Tells(events + more) == Tells(events) + Tells(more)
    decreases |more|
  {
    if more == [] {
      assert events + more == events;
    } else {
      var n := |more| - 1;
      assert (events + more)[..|events + more| - 1] == events + more[..n];
      TellsOf(events, more[..n]);
    }
  }

  lemma TellsOfSingle(e: Event)
    ensures Tells([e]) == if e.Told? then [e.trial] else []
  {
    assert [e][..0] == [];
  }

  lemma {:induction false} TellsOfOne(a: Attempt, s: Setting)
    ensures Tells(EventsOf(a, s)) == if Ends(a.course) && !a.course.NotApplied? then [] else [a.id]
  {
    var e := EventsOf(a, s);
    hide Tells;
    if |e| == 1 {
      TellsOfSingle(e[0]);
      assert e == [e[0]];
    } else {
      var n := |e| - 1;
      TellsOf(e[..n], [e[n]]);
      assert e == e[..n] + [e[n]];
      TellsOfSingle(e[n]);
      NothingTold(e[..n]);
    }
  }

  lemma {:induction false} NothingTold(e: seq<Event>)
    requires forall x | x in e :: !x.Told?
    ensures Tells(e) == []
  {
    if e != [] { NothingTold(e[..|e| - 1]); }
  }

  /** Every asked trial is told exactly once, in order, but for a last one whose wait was cut short. */
  lemma {:induction false} ToldOnce(attempts: seq<Attempt>, limits: seq<Limit>, s: Setting)
    requires IsSession(attempts, limits, s)
    ensures var told := Tells(AllEvents(attempts, s));
            && |told| == (if Goon(attempts) || attempts[|attempts| - 1].course.NotApplied? then |attempts|
                          else |attempts| - 1)
            && forall i | 0 <= i < |told| :: told[i] == i
    decreases |attempts|
  {
    hide EventsOf, Goes, Follows;
    if attempts != [] {
      var n := |attempts| - 1;
      assert AllEvents(attempts, s) == AllEvents(attempts[..n], s) + EventsOf(attempts[n], s);
      hide Tells, AllEvents, Ends;
      assert FitsAt(attempts, n, limits, s);
      SessionPrefix(attempts, limits, s, n);
      ToldOnce(attempts[..n], limits, s);
      hide IsSession, FitsAt;
      TellsOf(AllEvents(attempts[..n], s), EventsOf(attempts[n], s));
      TellsOfOne(attempts[n], s);
    }
  }

  /** The best trial was really run: it is the record of an attempt measured on its own parameters. */
  lemma {:induction false} BestWasMeasured(attempts: seq<Attempt>, limits: seq<Limit>, s: Setting)
    requires IsSession(attempts, limits, s) && BestOf(Records(attempts, s)).Some?
    ensures exists i | 0 <= i < |attempts| ::
              && attempts[i].course.Measured? && !attempts[i].course.pruned
              && [BestOf(Records(attempts, s)).value] == RecordOf(attempts[i], s)
              && EarliestMaximum(Records(attempts, s), i)
  {
    var ts := Records(attempts, s);
    RecordsAt(attempts, limits, s);
    BestIsEarliestMaximum(ts);
    var i :| EarliestMaximum(ts, i) && ts[i] == BestOf(ts).value;
    assert ts[i].status.Completed?;
    hide BestOf, EarliestMaximum, IsSession, Records;
    RecordOfOne(attempts[i], s);
    assert [ts[i]] == RecordOf(attempts[i], s);
  }

  lemma {:induction false} RecordsAreScored(attempts: seq<Attempt>, limits: seq<Limit>, s: Setting)
    requires IsSession(attempts, limits, s) && s.slaMs >= 100
    ensures forall t | t in Records(attempts, s) :: Scored(t, s.slaMs)
  {
    var ts := Records(attempts, s);
    RecordsAt(attempts, limits, s);
    hide Records, Scored, RecordOf, Goes, Follows, Unfit, LimitsAfter, Ends;
    forall t | t in ts ensures Scored(t, s.slaMs) {
      var k :| 0 <= k < |ts| && ts[k] == t;
      assert FitsAt(attempts, k, limits, s);
      hide IsSession;
      RecordIsScored(attempts[k], s);
      assert [ts[k]][0] == t;
    }
  }

  lemma RecordIsScored(a: Attempt, s: Setting)
    requires Goes(a, s) && s.slaMs >= 100
    ensures forall t | t in RecordOf(a, s) :: Scored(t, s.slaMs)
  {
    hide AppliesTo, Polls, SeenReady, ModifiedOf, RollsBack, OutcomeOf;
  }

  /** The best score is non-negative exactly when some trial of the session was measured within the SLA. */
  lemma {:induction false} BestTellsSla(attempts: seq<Attempt>, limits: seq<Limit>, s: Setting)
    requires IsSession(attempts, limits, s) && s.slaMs >= 100 && BestOf(Records(attempts, s)).Some?
    ensures BestOf(Records(attempts, s)).value.score >= 0.0 <==>
            exists i | 0 <= i < |attempts| ::
              && attempts[i].course.Measured? && !attempts[i].course.pruned
              && MeetsSla(P99(attempts[i].course.run), s.slaMs)
  {
    var ts := Records(attempts, s);
    RecordsAreScored(attempts, limits, s);
    RecordsAt(attempts, limits, s);
    BestScoreTellsSla(ts, s.slaMs);
    hide IsSession, BestOf, Scored, Records, MeetsSla;
    forall k | 0 <= k < |ts|
      ensures ts[k].status.Completed? <==> attempts[k].course.Measured? && !attempts[k].course.pruned
      ensures ts[k].status.Completed? ==> ts[k].p99 == P99(attempts[k].course.run)
    {
      RecordOfOne(attempts[k], s);
      assert [ts[k]] == RecordOf(attempts[k], s);
    }
    if t :| t in ts && t.status.Completed? && MeetsSla(t.p99, s.slaMs) {
      var k :| 0 <= k < |ts| && ts[k] == t;
      assert attempts[k].course.Measured?;
    }
    if i :| 0 <= i < |attempts| && attempts[i].course.Measured? && !attempts[i].course.pruned &&
            MeetsSla(P99(attempts[i].course.run), s.slaMs) {
      LastMayEnd(attempts, i);
      assert ts[i] in ts;
    }
  }

  lemma LastMayEnd(attempts: seq<Attempt>, i: nat)
    requires i < |attempts| && attempts[i].course.Measured?
    ensures i < if Goon(attempts) then |attempts| else |attempts| - 1
  {
  }

  // ----- Known-good deployment

  /** The resource last observed ready, when `first` was at the start. */
  function LastReady(first: Json, attempts: seq<Attempt>): Json {
    if attempts == [] then first
    else
      var c := attempts[|attempts| - 1].course;
      if c.RunFailed? || c.Measured? then SeenReady(c.polls)
      else LastReady(first, attempts[..|attempts| - 1])
  }

  predicate RolledBackIfNeeded(c: Course) {
    c.BootFailed? ==> OutcomeOf(c.rollback).RolledBack?
  }

  predicate RollbacksSucceed(attempts: seq<Attempt>) {
    forall a | a in attempts :: RolledBackIfNeeded(a.course)
  }

  lemma {:induction false} KnownGoodFrom(attempts: seq<Attempt>, limits: seq<Limit>, s: Setting, first: Json, i: nat)
    requires IsSession(attempts, limits, s) && i < |attempts| && attempts[0].held == Some(first)
    requires RollbacksSucceed(attempts[..i])
    ensures attempts[i].held == Some(LastReady(first, attempts[..i]))
    decreases i
  {
    hide RequestsOf, Polls, SeenReady, OutcomeOf, AppliesTo, RollsBack, ModifiedOf;
    if i > 0 {
      var init := attempts[..i];
      assert init[..i - 1] == attempts[..i - 1];
      assert forall a :: a in attempts[..i - 1] ==> a in init;
      KnownGoodFrom(attempts, limits, s, first, i - 1);
      assert FitsAt(attempts, i - 1, limits, s);
      assert !Ends(attempts[i - 1].course) && Follows(attempts[i - 1], s, attempts[i].held);
      assert init[i - 1] == attempts[i - 1];
    }
  }

  /** Some resource that said it was ready when read, of which this is all that is not server-managed. */
  ghost predicate SaidReady(j: Json) {
    exists body :: IsReady(body) && CleanForCreate(body) == j
  }

  lemma SeenSaidReady(polls: seq<Request>)
    requires Polls(polls, Ready)
    ensures SaidReady(SeenReady(polls))
  {
    assert IsReady(polls[|polls| - 1].reply.body);
    hide IsReady, CleanForCreate;
  }

  lemma {:induction false} LastReadySaidSo(attempts: seq<Attempt>, limits: seq<Limit>, s: Setting, first: Json, n: nat)
    requires IsSession(attempts, limits, s) && n <= |attempts| && SaidReady(first)
    ensures SaidReady(LastReady(first, attempts[..n]))
    decreases n
  {
    hide SaidReady, Polls, SeenReady, AppliesTo, RollsBack, OutcomeOf, ModifiedOf, Follows, Unfit, LimitsAfter;
    if n > 0 {
      assert attempts[..n][..n - 1] == attempts[..n - 1] && attempts[..n][n - 1] == attempts[n - 1];
      LastReadySaidSo(attempts, limits, s, first, n - 1);
      assert FitsAt(attempts, n - 1, limits, s);
      var c := attempts[n - 1].course;
      if c.RunFailed? || c.Measured? { SeenSaidReady(c.polls); }
    }
  }

  /**
   * As long as rollbacks succeed, every trial is asked for while the resource last observed ready is deployed:
   * one whose own status said so when it was last polled.
   */
  lemma {:induction false} KnownGood(
    attempts: seq<Attempt>, limits: seq<Limit>, s: Setting, opening: seq<Request>, i: nat)
    requires IsSession(attempts, limits, s) && i < |attempts| && Polls(opening, Ready)
    requires attempts[0].held == Some(SeenReady(opening)) && RollbacksSucceed(attempts[..i])
    ensures attempts[i].held == Some(LastReady(SeenReady(opening), attempts[..i]))
    ensures SaidReady(LastReady(SeenReady(opening), attempts[..i]))
  {
    hide IsSession, LastReady, SaidReady, RollbacksSucceed;
    KnownGoodFrom(attempts, limits, s, SeenReady(opening), i);
    SeenSaidReady(opening);
    LastReadySaidSo(attempts, limits, s, SeenReady(opening), i);
  }

  /** What a trial was measured on reads back exactly its parameters, and differs from before in arguments only. */
  lemma {:induction false} MeasuredOnItsParameters(attempts: seq<Attempt>, limits: seq<Limit>, s: Setting, i: nat)
    requires IsSession(attempts, limits, s) && i < |attempts| && attempts[i].course.Measured?
    requires Word(s.realText(attempts[i].params.gpuUtil))
    ensures var seen := SeenReady(attempts[i].course.polls);
            && attempts[i].held.Some? && WellShaped(s.kind, attempts[i].held.value)
            && Carries(s.kind, seen, attempts[i].params, s.realText)
            && Skeleton(s.kind, seen) == Skeleton(s.kind, attempts[i].held.value)
  {
    var a := attempts[i];
    var entries := ParamsEntries(a.params, s.realText);
    assert FitsAt(attempts, i, limits, s);
    hide WellShaped, Applied, ParamsEntries, Skeleton, Carries, Fits, Printable, Word, Polls, SeenReady, Unfit,
         LimitsAfter, Follows, Ends, Applies, CleanForCreate;
    assert SeenReady(a.course.polls) == Applied(s.kind, a.held.value, entries);
    hide IsSession, Goes, FitsAt;
    ParamsEntriesFacts(a.params, s.realText, s.kind);
    AppliedCarries(s.kind, a.held.value, a.params, s.realText);
    ApplyKeepsSkeleton(s.kind, a.held.value, entries);
  }

  // ----- What is created

  predicate AllUnmanaged(rs: seq<Request>) {
    forall r | r in rs && r.Created? :: Unmanaged(r.body)
  }

  lemma JoinedUnmanaged(a: seq<Request>, b: seq<Request>)
    ensures AllUnmanaged(a + b) <==> AllUnmanaged(a) && AllUnmanaged(b)
  {
    assert forall r :: r in a + b <==> r in a || r in b;
    hide Unmanaged;
  }

  lemma OnlyReads(gets: seq<Request>)
    requires forall i | 0 <= i < |gets| :: gets[i].Got?
    ensures AllUnmanaged(gets)
  {
    hide Unmanaged;
  }

  lemma PollsOnlyRead(gets: seq<Request>, r: Readiness)
    requires Polls(gets, r)
    ensures AllUnmanaged(gets)
  {
    OnlyReads(gets);
    hide Unmanaged, IsReady;
  }

  lemma {:induction false} ApplyCreates(run: ApplyRun, modified: Json, kept: Json)
    requires Applies(run) && (run.Unavailable? || run.NotRead? || (Unmanaged(modified) && Unmanaged(kept)))
    ensures AllUnmanaged(ApplyRequests(run, modified, kept))
  {
    hide Unmanaged;
  }

  lemma {:induction false} RollbackCreates(run: RollbackRun, kept: Json)
    requires RollsBack(run) && Unmanaged(kept)
    ensures AllUnmanaged(RollbackRequests(run, kept))
  {
    hide Unmanaged;
  }

  lemma HeldIsUnmanaged(a: Attempt, s: Setting, read: Json)
    requires a.held == Some(CleanForCreate(read)) && WellShaped(s.kind, a.held.value)
    ensures Unmanaged(KeptOf(a)) && Unmanaged(ModifiedOf(a, s))
  {
    assert read.Obj?;
    var entries := ParamsEntries(a.params, s.realText);
    CleanFacts(read);
    AppliedToHeld(s.kind, a.held.value, entries);
    hide WellShaped, CleanForCreate, Applied, ParamsEntries, Unmanaged;
    CleanRemovesExactly(read);
    IsObject(s.kind, a.held.value, entries);
    CleanRemovesExactly(Applied(s.kind, a.held.value, entries));
  }

  lemma IsObject(kind: CrKind, cr: Json, newer: seq<Entry>)
    requires WellShaped(kind, cr)
    ensures Applied(kind, cr, newer).Obj?
  {
  }

  lemma {:induction false} AttemptCreates(a: Attempt, s: Setting)
    requires Goes(a, s)
    ensures AllUnmanaged(RequestsOf(a, s))
  {
    var kept, modified, c := KeptOf(a), ModifiedOf(a, s), a.course;
    if !c.Unapplied? {
      var run := c.apply;
      assert AppliesTo(a, run, s);
      if !run.Unavailable? && !run.NotRead? { HeldIsUnmanaged(a, s, run.read); }
      hide Unmanaged, KeptOf, ModifiedOf, CleanForCreate, WellShaped, RollsBack, Applies, ApplyRequests,
           RollbackRequests, OutcomeOf, IsReady, Polls, SeenReady, AppliesTo, Tps, AllUnmanaged;
      ApplyCreates(run, modified, kept);
      if !c.NotApplied? {
        var r := if c.Cancelled? then Interrupted else if c.WaitRaised? then ReadyRaised
                 else if c.RollbackRaised? || c.BootFailed? then NotReady else Ready;
        PollsOnlyRead(c.polls, r);
        JoinedUnmanaged(ApplyRequests(run, modified, kept), c.polls);
        if c.RollbackRaised? || c.BootFailed? {
          RollbackCreates(c.rollback, kept);
          JoinedUnmanaged(ApplyRequests(run, modified, kept) + c.polls, RollbackRequests(c.rollback, kept));
        }
      }
    }
  }

  /** Every resource that a session creates is free of what the server manages. */
  lemma {:induction false} CreatedAreUnmanaged(attempts: seq<Attempt>, limits: seq<Limit>, s: Setting)
    requires IsSession(attempts, limits, s)
    ensures forall r | r in AllRequests(attempts, s) && r.Created? :: Unmanaged(r.body)
    decreases |attempts|
  {
    hide Goes, Follows, Ends, Unfit, RequestsOf, Unmanaged;
    if attempts != [] {
      var n := |attempts| - 1;
      SessionPrefix(attempts, limits, s, n);
      CreatedAreUnmanaged(attempts[..n], limits, s);
      assert FitsAt(attempts, n, limits, s);
      AttemptCreates(attempts[n], s);
      JoinedUnmanaged(AllRequests(attempts[..n], s), RequestsOf(attempts[n], s));
    }
  }
}
