/** The auto-tuning session: ask, skip or apply, wait, roll back or evaluate, tell, record. */
module Tuner {
  import opened JsonValues
  import opened PatchAlgebra
  import opened Args
  import opened Words
  import opened Adapters
  import opened Trials
  import opened Memory
  import opened Cluster
  import opened Sessions

  const MAX_ATTEMPTS_PER_TRIAL := 5

  datatype TuningConfig = TuningConfig(nTrials: nat, slaMs: int, maxModelLen: int, model: Model)

  /** How waiting for an applied trial ended. */
  datatype TrialWait = Up | RolledDown | LeftAlone | Escaped

  /** How one trial ended; the last two end the session. */
  datatype Ending = Skip | Recorded | Over | Crashed

  datatype Result =
    | Rejected
    | NotStarted
    | Stopped
    | Aborted
    | Finished(bestReady: bool)

  // ----- What stays of the resource

  /** Both resources agree on everything but the tuning arguments, and the tokens that only start like one. */
  ghost predicate SameRest(kind: CrKind, a: Json, b: Json) {
    && WellShaped(kind, a) && WellShaped(kind, b)
    && Skeleton(kind, a) == Skeleton(kind, b) && ReadExtraArgs(kind, a) == ReadExtraArgs(kind, b)
    && (NoLookalikes(ArgsOf(kind, a)) ==> Unread(ArgsOf(kind, a)) == Unread(ArgsOf(kind, b)))
  }

  lemma {:induction false} AppliedSameRest(kind: CrKind, origin: Json, cr: Json, newer: seq<Entry>)
    requires SameRest(kind, origin, cr) && Fits(kind, newer)
    ensures SameRest(kind, origin, Applied(kind, cr, newer))
  {
    ApplyKeepsSkeleton(kind, cr, newer);
    ApplyReadsBack(kind, cr, newer);
    ApplyKeepsOtherArgs(kind, cr, newer);
    ApplyKeepsOtherArgs(kind, origin, newer);
    assert ReadExtraArgs(kind, cr) == Strip(ArgsOf(kind, cr));
    assert ReadExtraArgs(kind, origin) == Strip(ArgsOf(kind, origin));
    hide WellShaped, Applied, ArgsOf, Unread, Strip, Skeleton, ReadExtraArgs, NoLookalikes, ReadArgs;
  }

  lemma OriginIsItself(kind: CrKind, cr: Json)
    requires WellShaped(kind, cr)
    ensures SameRest(kind, CleanForCreate(cr), CleanForCreate(cr))
  {
    SnapshotIsWellShaped(kind, cr);
  }

  // ----- The study, the load engine and the boot logs

  /** All a session has of others than the API server; whatever they answer is logged. */
  class Surroundings {
    var asked: nat
    ghost var events: seq<Event>
    /** How often another task called `stop`, and how many polls each wait for readiness had time for. */
    ghost var stops: nat
    ghost var patience: seq<nat>

    constructor ()
      ensures asked == 0 && events == []
    {
      asked, events, stops, patience := 0, [], 0, [];
    }

    /** Another task may call `stop` while the session waits. */
    method Pause() returns (stop: bool)
      modifies this`stops
      ensures stops == old(stops) + if stop then 1 else 0
    {
      stop := *;
      if stop { stops := stops + 1; }
    }

    /** The clock: a wait has time for one poll at least. */
    method Patience() returns (polls: nat)
      modifies this`patience
      ensures polls >= 1 && patience == old(patience) + [polls]
    {
      var time: int := *;
      polls := if time >= 1 then time else 1;
      patience := patience + [polls];
    }

    method NewStudy()
      modifies this`asked
      ensures asked == 0
    {
      asked := 0;
    }

    /** Any parameters, but for the context length, which the configuration fixes. */
    method Ask(maxModelLen: int) returns (trial: nat, params: Params)
      modifies this`asked, this`events
      ensures trial == old(asked) && asked == trial + 1 && params.maxModelLen == maxModelLen
      ensures events == old(events) + [Asked(trial, params)]
    {
      params := *;
      params := params.(maxModelLen := maxModelLen);
      trial, asked := asked, asked + 1;
      events := events + [Asked(trial, params)];
    }

    method Tell(trial: nat, verdict: Verdict)
      requires trial < asked
      modifies this`events
      ensures events == old(events) + [Told(trial, verdict)]
    {
      events := events + [Told(trial, verdict)];
    }

    /** The outcome of an evaluation: None for an exception. */
    method Measure() returns (run: Option<RunResult>, pruned: bool)
      modifies this`events
      ensures events == old(events) + [Ran(run, pruned)]
      ensures run.Some? ==> Tps(run.value) >= 0.0
      ensures run.None? ==> !pruned
    {
      run, pruned := *, *;
      if run.Some? && Tps(run.value) < 0.0 { run := None; }
      if run.None? { pruned := false; }
      events := events + [Ran(run, pruned)];
    }

    method Diagnose() returns (diagnoses: seq<Diagnosis>)
      modifies this`events
      ensures events == old(events) + [Diagnosed(diagnoses)]
    {
      diagnoses := *;
      events := events + [Diagnosed(diagnoses)];
    }
  }

  lemma NewsOneMore(known: seq<Limit>, lessons: seq<Limit>, l: Limit)
    ensures News(known, lessons + [l]) == News(known, lessons) + if l in known then [] else [l]
  {
    assert (lessons + [l])[..|lessons|] == lessons;
  }

  lemma NoNews(known: seq<Limit>, util: real)
    ensures News(known, []) == [] && known + News(known, Lessons([], util)) == known
  {
  }

  lemma BestOneMore(ts: seq<Trial>, t: Trial)
    ensures var best := BestOf(ts);
            BestOf(ts + [t]) ==
            if t.status.Completed? && (best.None? || t.score > best.value.score) then Some(t) else best
    ensures HistoryOf(ts + [t]) == HistoryOf(ts) + [BestScore(BestOf(ts + [t]))]
  {
    assert (ts + [t])[..|ts|] == ts;
  }

  // ----- How a session ends

  datatype Closing = NotClosed | Closed(held: Option<Json>, apply: ApplyRun, polls: seq<Request>)

  const SOME_PARAMS := Params(0, 0.0, 0, 0)

  /** The best parameters are applied to the resource deployed, and only a recreated one is waited for. */
  predicate Closes(c: Closing, p: Params, s: Setting) {
    && c.Closed? && AppliesTo(Attempt(0, p, c.held, Unapplied), c.apply, s)
    && (if c.apply.Recreated? then
          || Polls(c.polls, Ready) || Polls(c.polls, NotReady)
          || Polls(c.polls, ReadyRaised) || Polls(c.polls, Interrupted)
        else c.polls == [])
  }

  function ClosingRequests(c: Closing, p: Params, s: Setting): seq<Request> {
    if c.NotClosed? then [] else RequestsOf(Attempt(0, p, c.held, Cancelled(c.apply, c.polls)), s)
  }

  datatype End = NotAppliedEnd | CancelledEnd | RaisedEnd

  predicate EndedBy(attempts: seq<Attempt>, e: End) {
    attempts != [] &&
    var c := attempts[|attempts| - 1].course;
    match e
    case NotAppliedEnd => c.NotApplied?
    case CancelledEnd => c.Cancelled?
    case RaisedEnd => c.WaitRaised? || c.RollbackRaised?
  }

  /** Why a session ends as it does; `stopped` says that another task stopped it. */
  predicate EndsFor(
    result: Result, opening: seq<Request>, attempts: seq<Attempt>, closing: Closing, stopped: bool, nTrials: nat)
  {
    match result
    case Rejected => false
    case NotStarted =>
      attempts == [] && closing.NotClosed? && Polls(opening, if stopped then Interrupted else NotReady)
    case Stopped => Polls(opening, Ready) && closing.NotClosed? && (stopped || EndedBy(attempts, NotAppliedEnd))
    case Aborted =>
      || (Polls(opening, ReadyRaised) && attempts == [])
      || (Polls(opening, Ready) && EndedBy(attempts, RaisedEnd))
      || (closing.Closed? && closing.apply.Recreated? && Polls(closing.polls, ReadyRaised))
    case Finished(bestReady) =>
      && Polls(opening, Ready) && Goon(attempts)
      && (Counted(attempts) == nTrials || |attempts| == nTrials * MAX_ATTEMPTS_PER_TRIAL)
      && (if closing.NotClosed? then !bestReady
          else
            && (bestReady ==> closing.apply.Recreated? && Polls(closing.polls, Ready))
            && (!stopped ==> bestReady == (closing.apply.Recreated? && Polls(closing.polls, Ready))))
  }

  function BestParams(best: Option<Trial>): Params {
    if best.Some? then best.value.params else SOME_PARAMS
  }

  // ----- The tuner

  class AutoTuner {
    const operator: K8sOperator
    const others: Surroundings
    const config: TuningConfig
    var running: bool
    var cancelled: bool
    var trials: seq<Trial>
    var bestTrial: Option<Trial>
    var history: seq<real>
    var learnedLimits: seq<Limit>
    /** The resource as it was when the session started. */
    ghost var origin: Option<Json>

    constructor (operator: K8sOperator, others: Surroundings, config: TuningConfig, learnedLimits: seq<Limit>)
      requires operator.Valid() && config.slaMs >= 100
      ensures this.operator == operator && this.others == others && this.config == config
      ensures Valid() && !running && this.learnedLimits == learnedLimits
    {
      this.operator, this.others, this.config, this.learnedLimits := operator, others, config, learnedLimits;
      running, cancelled := false, false;
      trials, bestTrial, history, origin := [], None, [], None;
    }

    ghost function Where(): Setting {
      Setting(operator.server.kind, operator.realText, operator.available, config.model, config.slaMs,
              config.maxModelLen)
    }

    ghost predicate Recordkeeping()
      reads this
    {
      config.slaMs >= 100 && bestTrial == BestOf(trials) && history == HistoryOf(trials)
    }

    /** Whatever the server holds differs from the original in tuning arguments only. */
    ghost predicate RestUnchanged()
      reads this, operator, operator.server
    {
      operator.server.Held().Some? ==>
        origin.Some? && SameRest(operator.server.kind, origin.value, operator.server.Held().value)
    }

    ghost predicate Valid()
      reads this, operator, operator.server
    {
      operator.Valid() && Recordkeeping()
    }

    /** Another task may call `stop` wherever this one waits; nothing else cancels a session here. */
    method MayBeStopped()
      modifies this`running, this`cancelled, others`stops
      ensures cancelled <==> old(cancelled) || others.stops > old(others.stops)
      ensures others.stops >= old(others.stops)
      ensures !cancelled ==> running == old(running)
    {
      var stop := others.Pause();
      if stop { cancelled, running := true, false; }
    }

    /**
     * Polls the resource until it says it is ready, the time is over, access is forbidden, or the session is stopped.
     * A stop during the cool-down takes readiness back; one that came just before the cool-down does not.
     */
    method WaitForReady() returns (r: Readiness, ghost polls: seq<Request>)
      requires operator.Valid() && !cancelled
      modifies this`running, this`cancelled, others`stops, others`patience,
               operator.server`state, operator.server`requests
      ensures operator.Valid() && Drifts(old(operator.server.state), operator.server.state)
      ensures operator.server.requests == old(operator.server.requests) + polls
      ensures cancelled <==> others.stops > old(others.stops)
      ensures others.stops >= old(others.stops)
      ensures !cancelled ==> running == old(running)
      ensures !r.Interrupted? && (r.NotReady? && cancelled ==> Polls(polls, Interrupted))
      ensures !(r.NotReady? && cancelled) ==> Polls(polls, r)
      ensures r.NotReady? && !cancelled ==>
                || polls[|polls| - 1].reply == Refused(true)
                || others.patience == old(others.patience) + [|polls|]
      ensures r.Ready? ==> operator.server.Held() == Some(SeenReady(polls))
    {
      hide IsReady, CleanForCreate, WellShaped, Word;
      polls := [];
      var time := others.Patience();
      var left: int := time;
      MayBeStopped();
      while left > 0
        invariant operator.Valid() && Drifts(old(operator.server.state), operator.server.state)
        invariant operator.server.requests == old(operator.server.requests) + polls
        invariant forall i | 0 <= i < |polls| :: GoesOn(polls[i])
        invariant 0 <= left && |polls| + left == time && others.patience == old(others.patience) + [time]
        invariant cancelled <==> others.stops > old(others.stops)
        invariant others.stops >= old(others.stops)
        invariant !cancelled ==> running == old(running)
        decreases left
      {
        left := left - 1;
        if cancelled { return NotReady, polls; }
        var reply := operator.server.Get();
        polls := polls + [Got(reply)];
        if reply.Broken? { return ReadyRaised, polls; }
        if reply.Done? {
          var isReady := CheckReady(reply.body);
          if isReady {
            MayBeStopped();
            if !cancelled {
              MayBeStopped();
              if cancelled { return NotReady, polls; }
            }
            return Ready, polls;
          }
        }
        if reply.Refused? && reply.forbidden { return NotReady, polls; }
        MayBeStopped();
      }
      r := NotReady;
    }

    /** Appends a trial, and keeps the best one and its history. */
    method Record(t: Trial)
      requires Recordkeeping()
      modifies this`trials, this`bestTrial, this`history
      ensures Recordkeeping() && trials == old(trials) + [t]
    {
      BestOneMore(trials, t);
      hide BestOf, HistoryOf;
      trials := trials + [t];
      if t.status.Completed? && (bestTrial.None? || t.score > bestTrial.value.score) {
        bestTrial := Some(t);
      }
      history := history + [BestScore(bestTrial)];
    }

    /** Adds the lessons not known before, in order; nothing else becomes a limit. */
    method LearnFrom(diagnoses: seq<Diagnosis>, params: Params)
      modifies this`learnedLimits
      ensures learnedLimits == old(learnedLimits) + News(old(learnedLimits), Lessons(diagnoses, params.gpuUtil))
    {
      NoNews(learnedLimits, params.gpuUtil);
      hide News, Lessons;
      var limits := LearnLimits(diagnoses, params);
      var known := learnedLimits;
      assert limits[..0] == [];
      for i := 0 to |limits|
        invariant learnedLimits == known + News(known, limits[..i])
      {
        NewsOneMore(known, limits[..i], limits[i]);
        assert limits[..i + 1] == limits[..i] + [limits[i]];
        if limits[i] !in known {
          learnedLimits := learnedLimits + [limits[i]];
        }
      }
      assert limits[..|limits|] == limits;
    }

    /** Diagnoses a failed trial, learns limits from it, and records it. */
    method OnTrialFailure(trialNum: nat, params: Params) returns (ghost diagnoses: seq<Diagnosis>)
      requires Recordkeeping()
      modifies this`trials, this`bestTrial, this`history, this`learnedLimits, others`events
      ensures Recordkeeping() && others.events == old(others.events) + [Diagnosed(diagnoses)]
      ensures trials == old(trials) + [Trial(trialNum, params, 0.0, 0.0, 0.0, Failed)]
      ensures learnedLimits == old(learnedLimits) + News(old(learnedLimits), Lessons(diagnoses, params.gpuUtil))
    {
      hide BestOf, HistoryOf, News, Lessons;
      var found := others.Diagnose();
      diagnoses := found;
      LearnFrom(found, params);
      Record(Trial(trialNum, params, 0.0, 0.0, 0.0, Failed));
    }

    /**
     * Waits for a freshly applied trial. A trial that does not get ready is rolled back, learned from, recorded
     * and told; one whose wait is cancelled is left alone; an escaping exception ends the session.
     */
    method WaitForTrial(trialNum: nat, params: Params)
      returns (w: TrialWait, ghost polls: seq<Request>, ghost back: RollbackRun, ghost diagnoses: seq<Diagnosis>)
      requires Valid() && trialNum < others.asked
      requires operator.server.state.Present? && operator.snapshot.Some? && operator.available && !cancelled
      modifies this`running, this`cancelled, this`trials, this`bestTrial, this`history, this`learnedLimits,
               others`events, others`stops, others`patience, operator`lastRollback, operator.server
      ensures Valid()
      ensures cancelled <==> others.stops > old(others.stops)
      ensures others.stops >= old(others.stops)
      ensures !cancelled ==> running == old(running)
      ensures w.Up? ==>
                && Polls(polls, Ready) && operator.server.state.Present?
                && operator.server.Held() == old(operator.server.Held()) == Some(SeenReady(polls))
      ensures w.LeftAlone? ==> cancelled && Polls(polls, Interrupted)
      ensures w.Escaped? ==>
                || Polls(polls, ReadyRaised)
                || (Polls(polls, NotReady) && RollsBack(back) && OutcomeOf(back).Raised?)
      ensures w.RolledDown? ==>
                && Polls(polls, NotReady) && RollsBack(back) && !back.NothingToRestore? && !OutcomeOf(back).Raised?
                && trials == old(trials) + [Trial(trialNum, params, 0.0, 0.0, 0.0, Failed)]
                && others.events == old(others.events) + [Diagnosed(diagnoses), Told(trialNum, TrialFailed)]
                && learnedLimits == old(learnedLimits) + News(old(learnedLimits), Lessons(diagnoses, params.gpuUtil))
                && (OutcomeOf(back).RolledBack? ==>
                      && operator.server.state.Present?
                      && operator.server.Held() == Some(CleanForCreate(operator.snapshot.value)))
      ensures w.RolledDown? ==>
                || polls[|polls| - 1].reply == Refused(true)
                || others.patience == old(others.patience) + [|polls|]
      ensures operator.server.requests == old(operator.server.requests) + polls +
                if w.RolledDown? || (w.Escaped? && !Polls(polls, ReadyRaised))
                then RollbackRequests(back, CleanForCreate(operator.snapshot.value)) else []
      ensures !w.RolledDown? ==>
                others.events == old(others.events) && trials == old(trials) && learnedLimits == old(learnedLimits)
      ensures || operator.server.Held().None? || operator.server.Held() == old(operator.server.Held())
              || operator.server.Held() == Some(CleanForCreate(operator.snapshot.value))
    {
      hide CleanForCreate, WellShaped, BestOf, HistoryOf, News, Lessons, RollbackRequests, Word, GoesOn;
      back, diagnoses := NothingToRestore, [];
      var r;
      r, polls := WaitForReady();
      PollsExclude(polls);
      if r.Ready? { return Up, polls, back, diagnoses; }
      if r.ReadyRaised? { return Escaped, polls, back, diagnoses; }
      if cancelled { return LeftAlone, polls, back, diagnoses; }
      var rollback;
      rollback, back := operator.RollbackToSnapshot(trialNum);
      if rollback.Raised? { return Escaped, polls, back, diagnoses; }
      diagnoses := OnTrialFailure(trialNum, params);
      others.Tell(trialNum, TrialFailed);
      w := RolledDown;
    }

    /** Deletes and recreates the resource with new parameters; only the tuning arguments may change. */
    method ApplyParams(params: Params) returns (ok: bool, ghost run: ApplyRun)
      requires operator.Valid() && RestUnchanged()
      modifies operator`snapshot, operator.server
      ensures operator.Valid() && RestUnchanged()
      ensures Applies(run) && (ok <==> run.Recreated?) && (run.Unavailable? <==> !operator.available)
      ensures AppliesTo(Attempt(0, params, old(operator.server.Held()), Unapplied), run, Where())
      ensures operator.server.requests == old(operator.server.requests) +
                RequestsOf(Attempt(0, params, old(operator.server.Held()), NotApplied(run)), Where())
      ensures ok ==>
                && operator.server.state.Present? && operator.snapshot.Some?
                && old(operator.server.Held()) == Some(CleanForCreate(operator.snapshot.value))
                && operator.server.Held() ==
                   Some(ModifiedOf(Attempt(0, params, old(operator.server.Held()), Unapplied), Where()))
    {
      hide CleanForCreate, WellShaped, SameRest, Applied, ParamsEntries, Fits, Word, ApplyRequests, Applies;
      ghost var held := operator.server.Held();
      ParamsEntriesFacts(params, operator.realText, operator.server.kind);
      if held.Some? {
        AppliedSameRest(operator.server.kind, origin.value, held.value, operator.Config(params));
      }
      hide Parse, Print, Printable;
      ok, run := operator.ApplyParams(params);
      NothingApplied(run);
    }

    /** Applies the parameters of a trial that was not skipped; a failure tells the study and ends the session. */
    method ApplyTrial(trialNum: nat, params: Params) returns (ok: bool, ghost run: ApplyRun)
      requires Valid() && RestUnchanged() && trialNum < others.asked
      modifies this`running, this`cancelled, others`events, operator`snapshot, operator.server
      ensures Valid() && RestUnchanged()
      ensures Applies(run) && (ok <==> run.Recreated?)
      ensures AppliesTo(Attempt(trialNum, params, old(operator.server.Held()), Unapplied), run, Where())
      ensures operator.server.requests == old(operator.server.requests) +
                RequestsOf(Attempt(trialNum, params, old(operator.server.Held()), NotApplied(run)), Where())
      ensures ok ==>
                && cancelled == old(cancelled) && running == old(running) && others.events == old(others.events)
                && operator.server.state.Present? && operator.snapshot.Some? && operator.available
                && old(operator.server.Held()) == Some(CleanForCreate(operator.snapshot.value))
                && operator.server.Held() ==
                   Some(ModifiedOf(Attempt(trialNum, params, old(operator.server.Held()), Unapplied), Where()))
      ensures !ok ==> cancelled && others.events == old(others.events) + [Told(trialNum, TrialFailed)]
    {
      hide CleanForCreate, WellShaped, SameRest, BestOf, HistoryOf, Word, ApplyRequests, ParamsEntries, Applied;
      ok, run := ApplyParams(params);
      if !ok {
        others.Tell(trialNum, TrialFailed);
        cancelled, running := true, false;
      }
    }

    /** Evaluates a ready trial, tells the study and records what was measured. */
    method EvaluateTrial(trialNum: nat, params: Params)
      returns (ghost run: Option<RunResult>, ghost pruned: bool, ghost diagnoses: seq<Diagnosis>)
      requires Recordkeeping() && trialNum < others.asked
      modifies this`running, this`cancelled, this`trials, this`bestTrial, this`history, this`learnedLimits,
               others`events, others`stops
      ensures Recordkeeping()
      ensures cancelled <==> old(cancelled) || others.stops > old(others.stops)
      ensures others.stops >= old(others.stops)
      ensures !cancelled ==> running == old(running)
      ensures run.None? ==>
                && others.events == old(others.events) +
                     [Ran(None, false), Diagnosed(diagnoses), Told(trialNum, TrialFailed)]
                && trials == old(trials) + [Trial(trialNum, params, 0.0, 0.0, 0.0, Failed)]
                && learnedLimits == old(learnedLimits) + News(old(learnedLimits), Lessons(diagnoses, params.gpuUtil))
      ensures run.Some? ==>
                && Tps(run.value) >= 0.0 && learnedLimits == old(learnedLimits)
                && others.events == old(others.events) +
                     [Ran(run, pruned),
                      Told(trialNum, if pruned then TrialPruned else Value(Score(run.value, config.slaMs)))]
                && trials == old(trials) +
                     [Trial(trialNum, params, Tps(run.value), P99(run.value), Score(run.value, config.slaMs),
                            if pruned then Pruned else Completed)]
    {
      hide BestOf, HistoryOf, News, Lessons;
      var result, prune := others.Measure();
      run, pruned, diagnoses := result, prune, [];
      MayBeStopped();
      if result.None? {
        diagnoses := OnTrialFailure(trialNum, params);
        others.Tell(trialNum, TrialFailed);
      } else {
        var score := Score(result.value, config.slaMs);
        others.Tell(trialNum, if prune then TrialPruned else Value(score));
        var status := if prune then Pruned else Completed;
        Record(Trial(trialNum, params, Tps(result.value), P99(result.value), score, status));
      }
    }

    /** A trial that was not skipped: everything it did is told by its attempt. */
    method RunTrial(trialNum: nat, params: Params) returns (e: Ending, ghost a: Attempt)
      requires Valid() && RestUnchanged() && trialNum < others.asked && !cancelled
      modifies this`running, this`cancelled, this`trials, this`bestTrial, this`history, this`learnedLimits,
               others`events, others`stops, others`patience, operator, operator.server
      ensures Valid() && RestUnchanged()
      ensures cancelled <==> others.stops > old(others.stops) || a.course.NotApplied?
      ensures others.stops >= old(others.stops)
      ensures !cancelled ==> running == old(running)
      ensures a == Attempt(trialNum, params, old(operator.server.Held()), a.course)
      ensures Goes(a, Where()) && !a.course.Unapplied?
      ensures operator.server.requests == old(operator.server.requests) + RequestsOf(a, Where())
      ensures others.events == old(others.events) + EventsOf(a, Where())[1..]
      ensures trials == old(trials) + RecordOf(a, Where())
      ensures learnedLimits == old(learnedLimits) + News(old(learnedLimits), LessonsOf(a))
      ensures e.Recorded? ==> Follows(a, Where(), operator.server.Held())
      ensures Ends(a.course) <==> e.Over? || e.Crashed?
      ensures e.Over? <==> a.course.NotApplied? || a.course.Cancelled?
      ensures e.Crashed? <==> a.course.WaitRaised? || a.course.RollbackRaised?
      ensures a.course.Cancelled? ==> others.stops > old(others.stops)
      ensures !e.Skip?
    {
      hide CleanForCreate, SameRest, WellShaped, BestOf, HistoryOf, Word, ParamsEntries, Applied, ApplyRequests,
           RollbackRequests, News, Lessons, Polls, SeenReady, Applies, RollsBack, Score;
      ghost var held, r0 := operator.server.Held(), operator.server.requests;
      var applied;
      ghost var run;
      applied, run := ApplyTrial(trialNum, params);
      NoNews(learnedLimits, params.gpuUtil);
      if !applied {
        a := Attempt(trialNum, params, held, NotApplied(run));
        return Over, a;
      }
      ghost var polls, back, ds;
      var w;
      w, polls, back, ds := WaitForTrial(trialNum, params);
      ghost var first := RequestsOf(Attempt(trialNum, params, held, NotApplied(run)), Where());
      Appended(r0, first, polls, RollbackRequests(back, CleanForCreate(operator.snapshot.value)));
      match w {
        case Escaped =>
          a := Attempt(trialNum, params, held,
                       if Polls(polls, ReadyRaised) then WaitRaised(run, polls) else RollbackRaised(run, polls, back));
          e := Crashed;
        case LeftAlone =>
          a := Attempt(trialNum, params, held, Cancelled(run, polls));
          e := Over;
        case RolledDown =>
          a := Attempt(trialNum, params, held, BootFailed(run, polls, back, ds));
          e := Recorded;
        case Up =>
          ghost var result, pruned, ds2 := EvaluateTrial(trialNum, params);
          a := Attempt(trialNum, params, held,
                       if result.Some? then Measured(run, polls, result.value, pruned) else RunFailed(run, polls, ds2));
          e := Recorded;
      }
    }

    /** One pass of the trial loop: exactly the unfit parameters are skipped, all others are tried. */
    method ExecuteTrial(trialNum: nat) returns (e: Ending, ghost a: Attempt)
      requires Valid() && RestUnchanged() && others.asked == trialNum && !cancelled
      modifies this`running, this`cancelled, this`trials, this`bestTrial, this`history, this`learnedLimits,
               others, operator, operator.server
      ensures Valid() && RestUnchanged() && others.asked == trialNum + 1
      ensures cancelled <==> others.stops > old(others.stops) || a.course.NotApplied?
      ensures others.stops >= old(others.stops)
      ensures !cancelled ==> running == old(running)
      ensures a == Attempt(trialNum, a.params, old(operator.server.Held()), a.course)
      ensures a.params.maxModelLen == config.maxModelLen && Goes(a, Where())
      ensures a.course.Unapplied? <==> Unfit(a.params, config.model, old(learnedLimits))
      ensures operator.server.requests == old(operator.server.requests) + RequestsOf(a, Where())
      ensures others.events == old(others.events) + EventsOf(a, Where())
      ensures trials == old(trials) + RecordOf(a, Where())
      ensures learnedLimits == old(learnedLimits) + News(old(learnedLimits), LessonsOf(a))
      ensures e.Skip? <==> a.course.Unapplied?
      ensures e.Skip? || e.Recorded? ==> Follows(a, Where(), operator.server.Held())
      ensures Ends(a.course) <==> e.Over? || e.Crashed?
      ensures e.Over? <==> a.course.NotApplied? || a.course.Cancelled?
      ensures e.Crashed? <==> a.course.WaitRaised? || a.course.RollbackRaised?
      ensures a.course.Cancelled? ==> others.stops > old(others.stops)
    {
      hide CleanForCreate, SameRest, WellShaped, BestOf, HistoryOf, Word, ParamsEntries, Applied, ApplyRequests,
           RollbackRequests, News, Lessons, Polls, SeenReady, Applies, RollsBack, Score, OomRisk, Admitted;
      var trial, params := others.Ask(config.maxModelLen);
      var violated := FirstViolatedLimit(params, learnedLimits);
      if OomRisk(config.model, params) || violated.Some? {
        NoNews(learnedLimits, params.gpuUtil);
        others.Tell(trial, TrialPruned);
        Record(Trial(trialNum, params, 0.0, 0.0, 0.0, Skipped));
        e, a := Skip, Attempt(trialNum, params, operator.server.Held(), Unapplied);
      } else {
        hide Goes, RequestsOf, RecordOf, LessonsOf, Follows, Ends;
        e, a := RunTrial(trialNum, params);
        FirstEvent(a, Where());
      }
    }

    /** Applies the best parameters and waits; ready means that the service runs with exactly these values. */
    method Finalize() returns (ready: bool, raised: bool, ghost closing: Closing)
      requires Valid() && RestUnchanged() && !cancelled
      modifies this`running, this`cancelled, others`stops, others`patience, operator, operator.server
      ensures Valid() && RestUnchanged() && others.stops >= old(others.stops)
      ensures bestTrial.None? ==> closing.NotClosed? && !ready && !raised
      ensures bestTrial.Some? ==>
                && closing.Closed? && closing.held == old(operator.server.Held())
                && Closes(closing, bestTrial.value.params, Where())
                && raised == (closing.apply.Recreated? && Polls(closing.polls, ReadyRaised))
                && (ready ==> closing.apply.Recreated? && Polls(closing.polls, Ready))
                && (others.stops == old(others.stops) ==>
                      ready == (closing.apply.Recreated? && Polls(closing.polls, Ready)))
                && (closing.apply.Recreated? && others.stops == old(others.stops) && !ready && !raised ==>
                      Polls(closing.polls, NotReady))
      ensures operator.server.requests == old(operator.server.requests) +
                ClosingRequests(closing, BestParams(bestTrial), Where())
      ensures ready ==>
                && bestTrial.Some? && operator.server.Held().Some?
                && Carries(operator.server.kind, operator.server.Held().value, bestTrial.value.params,
                           operator.realText)
    {
      hide CleanForCreate, WellShaped, SameRest, BestOf, HistoryOf, Word, Carries, ParamsEntries, Applied,
           ApplyRequests, Applies, SeenReady, GoesOn;
      ready, raised, closing := false, false, NotClosed;
      if bestTrial.Some? {
        var p := bestTrial.value.params;
        ghost var before, held := operator.server.requests, operator.server.Held();
        ghost var run, polls;
        if held.Some? { HeldIsWellShaped(); }
        var ok;
        ok, run := ApplyParams(p);
        ghost var first := RequestsOf(Attempt(0, p, held, NotApplied(run)), Where());
        polls := [];
        if ok {
          CarriesWhatWasApplied(p, held);
          var r;
          r, polls := WaitForReady();
          EndsOneWay(polls, if r.NotReady? && cancelled then Interrupted else r);
          ready, raised := r.Ready?, r.ReadyRaised?;
        }
        closing := Closed(held, run, polls);
        Appended(before, first, polls, []);
      }
    }

    lemma HeldIsWellShaped()
      requires RestUnchanged() && operator.server.Held().Some?
      ensures WellShaped(operator.server.kind, operator.server.Held().value)
    {
    }

    lemma CarriesWhatWasApplied(p: Params, held: Option<Json>)
      requires operator.Valid() && held.Some? && WellShaped(operator.server.kind, held.value)
      ensures Carries(operator.server.kind, ModifiedOf(Attempt(0, p, held, Unapplied), Where()), p, operator.realText)
    {
      hide WellShaped, Applied, ParamsEntries, Carries, Fits, Printable, Word;
      AppliedCarries(operator.server.kind, held.value, p, operator.realText);
    }

    /** Empty records. */
    method Reset()
      requires config.slaMs >= 100
      modifies this`trials, this`bestTrial, this`history
      ensures Recordkeeping() && trials == []
    {
      NothingRecorded();
      hide BestOf, HistoryOf;
      trials, bestTrial, history := [], None, [];
    }

    lemma HeldIsItself()
      requires operator.Valid() && operator.server.Held().Some?
      ensures SameRest(operator.server.kind, operator.server.Held().value, operator.server.Held().value)
    {
      OriginIsItself(operator.server.kind, operator.server.state.body);
    }

    /** A fresh session on the resource as it is. */
    method Initialize()
      requires Valid()
      modifies this`running, this`cancelled, this`trials, this`bestTrial, this`history, this`origin, others`asked
      ensures Valid() && RestUnchanged() && running && !cancelled && origin == operator.server.Held()
      ensures trials == [] && others.asked == 0
    {
      hide WellShaped, CleanForCreate, SameRest, Word, BestOf, HistoryOf;
      if operator.server.Held().Some? { HeldIsItself(); }
      Reset();
      others.NewStudy();
      running, cancelled, origin := true, false, operator.server.Held();
    }

    /** The trial loop. All it asked for, recorded and learned follows from its attempts. */
    method RunTrials() returns (crashed: bool, ghost attempts: seq<Attempt>)
      requires Valid() && RestUnchanged() && (!cancelled ==> running) && others.asked == 0 && trials == []
      modifies this`running, this`cancelled, this`trials, this`bestTrial, this`history, this`learnedLimits,
               others, operator, operator.server
      ensures Valid() && RestUnchanged()
      ensures IsSession(attempts, old(learnedLimits), Where())
      ensures attempts != [] ==> attempts[0].held == old(operator.server.Held())
      ensures trials == Records(attempts, Where()) && learnedLimits == LimitsAfter(old(learnedLimits), attempts)
      ensures operator.server.requests == old(operator.server.requests) + AllRequests(attempts, Where())
      ensures others.events == old(others.events) + AllEvents(attempts, Where())
      ensures |attempts| <= config.nTrials * MAX_ATTEMPTS_PER_TRIAL && Counted(attempts) <= config.nTrials
      ensures others.stops >= old(others.stops)
      ensures cancelled <==> old(cancelled) || others.stops > old(others.stops) || EndedBy(attempts, NotAppliedEnd)
      ensures EndedBy(attempts, CancelledEnd) ==> others.stops > old(others.stops)
      ensures crashed <==> EndedBy(attempts, RaisedEnd)
      ensures Goon(attempts) || cancelled || crashed
      ensures !cancelled && !crashed ==>
                Counted(attempts) == config.nTrials || |attempts| == config.nTrials * MAX_ATTEMPTS_PER_TRIAL
    {
      hide CleanForCreate, SameRest, WellShaped, BestOf, HistoryOf, Word, Goes, RequestsOf, EventsOf, RecordOf, News,
           LessonsOf, Follows, Ends, Unfit, IsSession, AllRequests, AllEvents, Records, LimitsAfter, Counted;
      ghost var limits, r0, e0 := learnedLimits, operator.server.requests, others.events;
      crashed, attempts := false, [];
      NoAttempts(limits, Where());
      var evaluated, trialNum := 0, 0;
      while trialNum < config.nTrials * MAX_ATTEMPTS_PER_TRIAL && evaluated < config.nTrials && !cancelled && running
        invariant Valid() && RestUnchanged() && (!cancelled ==> running)
        invariant others.asked == trialNum == |attempts| <= config.nTrials * MAX_ATTEMPTS_PER_TRIAL
        invariant evaluated == Counted(attempts) <= config.nTrials
        invariant IsSession(attempts, limits, Where())
        invariant attempts != [] ==> attempts[0].held == old(operator.server.Held())
        invariant trials == Records(attempts, Where()) && learnedLimits == LimitsAfter(limits, attempts)
        invariant operator.server.requests == r0 + AllRequests(attempts, Where())
        invariant others.events == e0 + AllEvents(attempts, Where())
        invariant Goon(attempts) || cancelled
        invariant others.stops >= old(others.stops)
        invariant cancelled <==> old(cancelled) || others.stops > old(others.stops) || EndedBy(attempts, NotAppliedEnd)
        invariant EndedBy(attempts, CancelledEnd) ==> others.stops > old(others.stops)
        invariant !EndedBy(attempts, RaisedEnd)
        invariant Goon(attempts) && attempts != [] ==>
                    Follows(attempts[|attempts| - 1], Where(), operator.server.Held())
        invariant attempts == [] ==> operator.server.Held() == old(operator.server.Held())
        decreases config.nTrials * MAX_ATTEMPTS_PER_TRIAL - trialNum
      {
        ghost var a;
        var e;
        e, a := ExecuteTrial(trialNum);
        SessionOneMore(attempts, a, limits, Where());
        TotalsOneMore(attempts, a, limits, Where());
        attempts := attempts + [a];
        trialNum := trialNum + 1;
        if !e.Skip? { evaluated := evaluated + 1; }
        if e.Crashed? {
          crashed := true;
          return;
        }
        MayBeStopped();
      }
    }

    /** What is left once the records are empty: the first wait, the trials, and the best parameters applied. */
    method Tune()
      returns (result: Result, ghost opening: seq<Request>, ghost attempts: seq<Attempt>, ghost closing: Closing)
      requires Valid() && RestUnchanged() && running && !cancelled && others.asked == 0 && trials == []
      modifies this`running, this`cancelled, this`trials, this`bestTrial, this`history, this`learnedLimits,
               others, operator, operator.server
      ensures Valid() && RestUnchanged() && !result.Rejected?
      ensures IsSession(attempts, old(learnedLimits), Where())
      ensures trials == Records(attempts, Where()) && learnedLimits == LimitsAfter(old(learnedLimits), attempts)
      ensures others.events == old(others.events) + AllEvents(attempts, Where())
      ensures operator.server.requests ==
              old(operator.server.requests) + opening + AllRequests(attempts, Where()) +
              ClosingRequests(closing, BestParams(bestTrial), Where())
      ensures attempts != [] ==> Polls(opening, Ready) && attempts[0].held == Some(SeenReady(opening))
      ensures |attempts| <= config.nTrials * MAX_ATTEMPTS_PER_TRIAL && Counted(attempts) <= config.nTrials
      ensures EndsFor(result, opening, attempts, closing, others.stops > old(others.stops), config.nTrials)
      ensures result.Finished? ==>
                && (closing.Closed? <==> bestTrial.Some?)
                && (closing.Closed? ==> Closes(closing, BestParams(bestTrial), Where()))
      ensures result.Finished? && result.bestReady ==>
                && bestTrial.Some? && operator.server.Held().Some?
                && Carries(operator.server.kind, operator.server.Held().value, bestTrial.value.params,
                           operator.realText)
    {
      hide CleanForCreate, SameRest, WellShaped, BestOf, HistoryOf, Word, Carries, ParamsEntries, IsSession,
           AllRequests, AllEvents, Records, LimitsAfter, Counted, Goon, RequestsOf, Polls, SeenReady, Applies, Closes,
           EndedBy;
      attempts, closing := [], NotClosed;
      NoAttempts(learnedLimits, Where());
      var readiness;
      readiness, opening := WaitForReady();
      if !readiness.Ready? {
        return if readiness.ReadyRaised? then Aborted else NotStarted, opening, attempts, closing;
      }
      var crashed;
      crashed, attempts := RunTrials();
      if crashed {
        result := Aborted;
      } else if cancelled {
        result := Stopped;
      } else {
        var ready, raised;
        ready, raised, closing := Finalize();
        result := if raised then Aborted else Finished(ready);
      }
    }

    /**
     * A whole session. What it asked of the server and of others, what it recorded and what it learned all follow
     * from its attempts, which are a session in the sense of `IsSession`; the resource changes in its tuning
     * arguments only; attempts and counted trials stay within bounds; the best parameters are applied last; and
     * whatever it returns has its cause.
     */
    method Start()
      returns (result: Result, ghost opening: seq<Request>, ghost attempts: seq<Attempt>, ghost closing: Closing)
      requires Valid()
      modifies this, others, operator, operator.server
      ensures Valid()
      ensures result.Rejected? <==> old(running)
      ensures result.Rejected? ==> unchanged(this, others, operator, operator.server)
      ensures !result.Rejected? ==> RestUnchanged() && origin == old(operator.server.Held()) && !running
      ensures !result.Rejected? ==>
                && IsSession(attempts, old(learnedLimits), Where())
                && trials == Records(attempts, Where()) && learnedLimits == LimitsAfter(old(learnedLimits), attempts)
                && others.events == old(others.events) + AllEvents(attempts, Where())
                && operator.server.requests ==
                   old(operator.server.requests) + opening + AllRequests(attempts, Where()) +
                   ClosingRequests(closing, BestParams(bestTrial), Where())
      ensures !result.Rejected? && attempts != [] ==>
                Polls(opening, Ready) && attempts[0].held == Some(SeenReady(opening))
      ensures !result.Rejected? ==>
                |attempts| <= config.nTrials * MAX_ATTEMPTS_PER_TRIAL && Counted(attempts) <= config.nTrials
      ensures !result.Rejected? ==>
                EndsFor(result, opening, attempts, closing, others.stops > old(others.stops), config.nTrials)
      ensures result.Finished? ==>
                && (closing.Closed? <==> bestTrial.Some?)
                && (closing.Closed? ==> Closes(closing, BestParams(bestTrial), Where()))
      ensures result.Finished? && result.bestReady ==>
                && bestTrial.Some? && operator.server.Held().Some?
                && Carries(operator.server.kind, operator.server.Held().value, bestTrial.value.params,
                           operator.realText)
    {
      hide CleanForCreate, SameRest, WellShaped, BestOf, HistoryOf, Word, Carries, ParamsEntries, IsSession,
           AllRequests, AllEvents, Records, LimitsAfter, Counted, RequestsOf, Polls, SeenReady, Applies, Closes,
           EndsFor;
      opening, attempts, closing := [], [], NotClosed;
      if running { return Rejected, opening, attempts, closing; }
      Initialize();
      result, opening, attempts, closing := Tune();
      running := false;
    }
  }

  lemma EndsOneWay(polls: seq<Request>, r: Readiness)
    requires Polls(polls, r)
    ensures !r.Interrupted? ==> (Polls(polls, Ready) <==> r.Ready?)
    ensures Polls(polls, ReadyRaised) <==> r.ReadyRaised?
  {
  }

  lemma NoAttempts(limits: seq<Limit>, s: Setting)
    ensures IsSession([], limits, s) && AllRequests([], s) == [] && AllEvents([], s) == [] && Records([], s) == []
    ensures LimitsAfter(limits, []) == limits && Counted([]) == 0 && Goon([])
  {
  }

  lemma FirstEvent(a: Attempt, s: Setting)
    ensures EventsOf(a, s) == [Asked(a.id, a.params)] + EventsOf(a, s)[1..]
  {
  }

  lemma NothingRecorded()
    ensures BestOf([]).None? && HistoryOf([]) == []
  {
  }

  lemma NothingApplied(run: ApplyRun)
    ensures run.Unavailable? || run.NotRead? ==>
              forall m, k, n, l :: ApplyRequests(run, m, k) == ApplyRequests(run, n, l)
  {
  }

  lemma PollsExclude(polls: seq<Request>)
    ensures Polls(polls, NotReady) ==> !Polls(polls, ReadyRaised)
  {
  }
}
