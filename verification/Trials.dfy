/** Trial parameters, learned limits, scores and the best-so-far record of a tuning session. */
module Trials {
  import opened PatchAlgebra

  datatype Params = Params(maxNumSeqs: int, gpuUtil: real, maxNumBatchedTokens: int, maxModelLen: int)

  // ----- Limits learned from boot failures

  datatype Code = MambaBlocksExceeded | KvCacheTooSmall | MaxModelLenExceedsModel | OtherCode

  datatype Diagnosis = Diagnosis(code: Code, suggested: Option<int>)

  datatype Bounded = NumSeqs | ModelLen

  /** `util` is None for a bound that holds at every utilization. */
  datatype Limit = Limit(param: Bounded, max: int, util: Option<real>)

  function Learnable(code: Code): Option<Bounded> {
    match code
    case MambaBlocksExceeded => Some(NumSeqs)
    case KvCacheTooSmall => Some(ModelLen)
    case MaxModelLenExceedsModel => Some(ModelLen)
    case OtherCode => None
  }

  function ValueOf(p: Params, b: Bounded): int {
    if b.NumSeqs? then p.maxNumSeqs else p.maxModelLen
  }

  predicate Violates(p: Params, l: Limit) {
    ValueOf(p, l.param) > l.max && (l.util.None? || p.gpuUtil <= l.util.value)
  }

  predicate Admitted(p: Params, limits: seq<Limit>) {
    forall l | l in limits :: !Violates(p, l)
  }

  /** The limit one diagnosis teaches about a trial that failed at `util`. */
  function Lesson(d: Diagnosis, util: real): Option<Limit> {
    var param := Learnable(d.code);
    if param.None? || d.suggested.None? || d.suggested.value < 1 then None
    else Some(Limit(param.value, d.suggested.value, if d.code.MaxModelLenExceedsModel? then None else Some(util)))
  }

  function Lessons(ds: seq<Diagnosis>, util: real): seq<Limit> {
    if ds == [] then []
    else Lessons(ds[..|ds| - 1], util) +
         match Lesson(ds[|ds| - 1], util) case Some(l) => [l] case None => []
  }

  method LearnLimits(ds: seq<Diagnosis>, params: Params) returns (limits: seq<Limit>)
    ensures limits == Lessons(ds, params.gpuUtil)
  {
    limits := [];
    for i := 0 to |ds|
      invariant limits == Lessons(ds[..i], params.gpuUtil)
    {
      assert ds[..i + 1][..i] == ds[..i];
      match Lesson(ds[i], params.gpuUtil) {
        case Some(l) => limits := limits + [l];
        case None =>
      }
    }
    assert ds[..|ds|] == ds;
  }

  method FirstViolatedLimit(p: Params, limits: seq<Limit>) returns (r: Option<Limit>)
    ensures r.None? <==> Admitted(p, limits)
    ensures r.Some? ==> exists i | 0 <= i < |limits| ::
              limits[i] == r.value && Violates(p, limits[i]) && Admitted(p, limits[..i])
  {
    for i := 0 to |limits|
      invariant Admitted(p, limits[..i])
    {
      if ValueOf(p, limits[i].param) > limits[i].max {
        if limits[i].util.None? || p.gpuUtil <= limits[i].util.value {
          assert limits[i] in limits && Violates(p, limits[i]);
          return Some(limits[i]);
        }
      }
      assert limits[..i + 1] == limits[..i] + [limits[i]];
    }
    assert limits[..|limits|] == limits;
    r := None;
  }

  /** Every lesson is at least 1 and holds where it was measured. */
  lemma {:induction false} LessonsFacts(ds: seq<Diagnosis>, util: real)
    ensures forall l | l in Lessons(ds, util) :: l.max >= 1 && (l.util.None? || l.util == Some(util))
    decreases |ds|
  {
    if ds != [] { LessonsFacts(ds[..|ds| - 1], util); }
  }

  /**
   * What a lesson below the failing value shuts out: the same parameter at or above that value with
   * utilization at or below the failing one. It says so exactly of the failing trial too.
   */
  lemma {:induction false} LessonShutsOut(ds: seq<Diagnosis>, failed: Params, l: Limit, p: Params)
    requires l in Lessons(ds, failed.gpuUtil) && l.max < ValueOf(failed, l.param)
    ensures Violates(failed, l)
    ensures ValueOf(p, l.param) >= ValueOf(failed, l.param) && p.gpuUtil <= failed.gpuUtil ==> Violates(p, l)
  {
    LessonsFacts(ds, failed.gpuUtil);
  }

  /**
   * What a diagnosis of a failure at `util` demands of later parameters: no more slots than Mamba blocks, no longer
   * contexts than the cache holds, at that utilization or below, and never longer ones than the model can.
   */
  predicate Heeds(p: Params, d: Diagnosis, util: real) {
    d.suggested.Some? && d.suggested.value >= 1 ==>
      var n := d.suggested.value;
      && (d.code == MambaBlocksExceeded ==> p.maxNumSeqs <= n || p.gpuUtil > util)
      && (d.code == KvCacheTooSmall ==> p.maxModelLen <= n || p.gpuUtil > util)
      && (d.code == MaxModelLenExceedsModel ==> p.maxModelLen <= n)
  }

  lemma AdmittedMore(p: Params, limits: seq<Limit>, l: Limit)
    ensures Admitted(p, limits + [l]) <==> Admitted(p, limits) && !Violates(p, l)
  {
    assert forall x :: x in limits + [l] <==> x in limits || x == l;
    hide Violates;
  }

  /** The limits learned from a failure admit exactly the parameters that heed every diagnosis of it. */
  lemma {:induction false} LessonsExactly(ds: seq<Diagnosis>, util: real, p: Params)
    ensures Admitted(p, Lessons(ds, util)) <==> forall d | d in ds :: Heeds(p, d, util)
    decreases |ds|
  {
    if ds != [] {
      var n := |ds| - 1;
      LessonsExactly(ds[..n], util, p);
      assert forall d :: d in ds <==> d in ds[..n] || d == ds[n];
      var before := Lessons(ds[..n], util);
      var lesson := Lesson(ds[n], util);
      assert lesson.None? ==> Heeds(p, ds[n], util) && Lessons(ds, util) == before + [];
      assert lesson.Some? ==> (Heeds(p, ds[n], util) <==> !Violates(p, lesson.value));
      if lesson.Some? { AdmittedMore(p, before, lesson.value); } else { assert before + [] == before; }
      hide Heeds, Violates, Lesson, Admitted;
    }
  }

  // ----- Scores

  /** What a load run reports: total throughput and p99 latency in seconds, either possibly missing. */
  datatype RunResult = RunResult(tps: Option<real>, p99: Option<real>)

  function Tps(r: RunResult): real { if r.tps.Some? then r.tps.value else 0.0 }

  function P99(r: RunResult): real { if r.p99.Some? then r.p99.value else 9999.0 }

  predicate MeetsSla(p99: real, slaMs: int) {
    p99 * 1000.0 <= slaMs as real
  }

  function Score(r: RunResult, slaMs: int): real
    requires slaMs >= 100
  {
    if P99(r) * 1000.0 > slaMs as real then -(P99(r) * 1000.0 / slaMs as real) else Tps(r)
  }

  /** The intended order: meeting the SLA first, then throughput; among violations the smaller p99. */
  predicate Better(a: RunResult, b: RunResult, slaMs: int) {
    if MeetsSla(P99(a), slaMs) then !MeetsSla(P99(b), slaMs) || Tps(a) > Tps(b)
    else !MeetsSla(P99(b), slaMs) && P99(a) < P99(b)
  }

  lemma DivideMonotone(a: real, b: real, c: real)
    requires c > 0.0
    ensures a < b <==> a / c < b / c
  {
    assert a == a / c * c && b == b / c * c;
  }

  lemma QuotientOfItself(s: real)
    requires s > 0.0
    ensures s / s == 1.0
  {
    var q := s / s;
    assert q * s == 1.0 * s;
  }

  /** The score orders results exactly as intended, and its sign is the SLA verdict. */
  lemma ScoreEmbedsOrder(a: RunResult, b: RunResult, slaMs: int)
    requires slaMs >= 100 && Tps(a) >= 0.0 && Tps(b) >= 0.0
    ensures Score(a, slaMs) > Score(b, slaMs) <==> Better(a, b, slaMs)
    ensures Score(a, slaMs) >= 0.0 <==> MeetsSla(P99(a), slaMs)
    ensures !MeetsSla(P99(a), slaMs) ==> Score(a, slaMs) < -1.0
  {
    var s := slaMs as real;
    DivideMonotone(P99(a) * 1000.0, P99(b) * 1000.0, s);
    DivideMonotone(s, P99(a) * 1000.0, s);
    DivideMonotone(s, P99(b) * 1000.0, s);
    QuotientOfItself(s);
  }

  /** The score of reported figures, and that figures not reported count as no throughput and 9999 seconds. */
  lemma ScoreOfFigures(x: real, p: real, r: RunResult, slaMs: int)
    requires slaMs >= 100
    ensures var score := Score(RunResult(Some(x), Some(p)), slaMs);
            if p * 1000.0 <= slaMs as real then score == x else score * slaMs as real == -(p * 1000.0)
    ensures r.tps.None? ==> Score(r, slaMs) == Score(r.(tps := Some(0.0)), slaMs) && Tps(r) == 0.0
    ensures r.p99.None? ==> Score(r, slaMs) == Score(r.(p99 := Some(9999.0)), slaMs) && P99(r) == 9999.0
  {
    var s := slaMs as real;
    var q := p * 1000.0 / s;
    assert q * s == p * 1000.0;
    assert (-q) * s == -(q * s);
  }

  /** The intended order on reported figures. */
  lemma {:induction false} ReportedOrder(x: real, p: real, y: real, q: real, slaMs: int)
    requires slaMs >= 100 && x >= 0.0 && y >= 0.0
    ensures Score(RunResult(Some(x), Some(p)), slaMs) > Score(RunResult(Some(y), Some(q)), slaMs) <==>
            if p * 1000.0 <= slaMs as real then q * 1000.0 > slaMs as real || x > y
            else q * 1000.0 > slaMs as real && p < q
  {
    hide Score;
    ScoreEmbedsOrder(RunResult(Some(x), Some(p)), RunResult(Some(y), Some(q)), slaMs);
  }

  // ----- Records

  datatype Status = Completed | Pruned | Skipped | Failed

  datatype Trial = Trial(id: nat, params: Params, tps: real, p99: real, score: real, status: Status)

  /** The best trial after recording all of `ts`. */
  function BestOf(ts: seq<Trial>): Option<Trial> {
    if ts == [] then None
    else
      var before, t := BestOf(ts[..|ts| - 1]), ts[|ts| - 1];
      if t.status.Completed? && (before.None? || t.score > before.value.score) then Some(t) else before
  }

  function BestScore(best: Option<Trial>): real {
    if best.Some? then best.value.score else 0.0
  }

  function HistoryOf(ts: seq<Trial>): (h: seq<real>)
    ensures |h| == |ts|
  {
    if ts == [] then [] else HistoryOf(ts[..|ts| - 1]) + [BestScore(BestOf(ts))]
  }

  /** `ts[i]` is the earliest of the completed trials with the greatest score. */
  predicate EarliestMaximum(ts: seq<Trial>, i: int) {
    && 0 <= i < |ts| && ts[i].status.Completed?
    && (forall j | 0 <= j < |ts| && ts[j].status.Completed? :: ts[j].score <= ts[i].score)
    && (forall j | 0 <= j < i && ts[j].status.Completed? :: ts[j].score < ts[i].score)
  }

  lemma MaximumStep(ts: seq<Trial>, i: int)
    requires ts != [] && EarliestMaximum(ts[..|ts| - 1], i)
    ensures var t := ts[|ts| - 1];
            EarliestMaximum(ts, if t.status.Completed? && t.score > ts[i].score then |ts| - 1 else i)
  {
    var init := ts[..|ts| - 1];
    assert forall j | 0 <= j < |init| :: init[j] == ts[j];
  }

  lemma {:induction false} BestIsEarliestMaximum(ts: seq<Trial>)
    ensures BestOf(ts).None? <==> forall i | 0 <= i < |ts| :: !ts[i].status.Completed?
    ensures BestOf(ts).Some? ==> exists i :: EarliestMaximum(ts, i) && ts[i] == BestOf(ts).value
    decreases |ts|
  {
    if ts != [] {
      var init, n := ts[..|ts| - 1], |ts| - 1;
      BestIsEarliestMaximum(init);
      assert forall j | 0 <= j < n :: init[j] == ts[j];
      if BestOf(init).Some? {
        var i :| EarliestMaximum(init, i) && init[i] == BestOf(init).value;
        MaximumStep(ts, i);
        assert ts[i] == init[i];
        hide EarliestMaximum;
      } else if ts[n].status.Completed? {
        assert EarliestMaximum(ts, n);
      }
    }
  }

  lemma {:induction false} HistoryAt(ts: seq<Trial>, i: nat)
    requires i < |ts|
    ensures HistoryOf(ts)[i] == BestScore(BestOf(ts[..i + 1]))
    decreases |ts|
  {
    if i < |ts| - 1 {
      HistoryAt(ts[..|ts| - 1], i);
      assert ts[..|ts| - 1][..i + 1] == ts[..i + 1];
    } else {
      assert ts[..i + 1] == ts;
    }
  }

  lemma {:induction false} BestGrows(ts: seq<Trial>, i: nat, j: nat)
    requires i <= j <= |ts| && BestOf(ts[..i]).Some?
    ensures BestOf(ts[..j]).Some? && BestOf(ts[..i]).value.score <= BestOf(ts[..j]).value.score
    decreases j
  {
    if i < j {
      BestGrows(ts, i, j - 1);
      assert ts[..j][..j - 1] == ts[..j - 1];
    }
  }

  /** From the first completed trial on, the history never decreases. */
  lemma {:induction false} HistoryNonDecreasing(ts: seq<Trial>, first: nat, i: nat, j: nat)
    requires first <= i <= j < |ts| && ts[first].status.Completed?
    ensures HistoryOf(ts)[i] <= HistoryOf(ts)[j]
  {
    HistoryAt(ts, i);
    HistoryAt(ts, j);
    hide HistoryOf, BestOf, EarliestMaximum;
    BestIsEarliestMaximum(ts[..i + 1]);
    assert ts[..i + 1][first] == ts[first];
    BestGrows(ts, i + 1, j + 1);
  }

  /** Completed records carry the score of the run they describe. */
  predicate Scored(t: Trial, slaMs: int)
    requires slaMs >= 100
  {
    t.status.Completed? ==> t.tps >= 0.0 && t.score == Score(RunResult(Some(t.tps), Some(t.p99)), slaMs)
  }

  /** The best score is non-negative exactly when some completed trial met the SLA, and then the best one did. */
  lemma BestScoreTellsSla(ts: seq<Trial>, slaMs: int)
    requires slaMs >= 100 && forall t | t in ts :: Scored(t, slaMs)
    requires BestOf(ts).Some?
    ensures BestOf(ts).value.score >= 0.0 <==> exists t | t in ts :: t.status.Completed? && MeetsSla(t.p99, slaMs)
    ensures BestOf(ts).value.score >= 0.0 <==> MeetsSla(BestOf(ts).value.p99, slaMs)
  {
    BestIsEarliestMaximum(ts);
    var i :| EarliestMaximum(ts, i) && ts[i] == BestOf(ts).value;
    forall t | t in ts && t.status.Completed?
      ensures t.score >= 0.0 <==> MeetsSla(t.p99, slaMs)
    {
      var r := RunResult(Some(t.tps), Some(t.p99));
      ScoreEmbedsOrder(r, r, slaMs);
    }
    if t :| t in ts && t.status.Completed? && MeetsSla(t.p99, slaMs) {
      var j :| 0 <= j < |ts| && ts[j] == t;
      assert ts[j].score <= ts[i].score;
    }
    assert ts[i] in ts;
  }
}
