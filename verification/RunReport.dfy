/** What a load run reports, and what the sweep and the tuner make of it. */
module RunReports {
  import opened PatchAlgebra
  import opened Load
  import opened LoadEngines
  import opened Sweep
  import opened Trials

  // ----- Figures of the kept results

  function Latencies(rs: seq<RequestResult>): seq<real> {
    if rs == [] then [] else (if rs[0].success then [rs[0].latency] else []) + Latencies(rs[1..])
  }

  function Inserted(x: real, xs: seq<real>): seq<real> {
    if xs == [] then [x] else if x <= xs[0] then [x] + xs else [xs[0]] + Inserted(x, xs[1..])
  }

  function Ascending(xs: seq<real>): (r: seq<real>)
    ensures |r| == |xs|
  {
    if xs == [] then [] else InsertedLength(xs[0], Ascending(xs[1..])); Inserted(xs[0], Ascending(xs[1..]))
  }

  lemma {:induction false} InsertedLength(x: real, xs: seq<real>)
    ensures |Inserted(x, xs)| == |xs| + 1
  {
    if xs != [] { InsertedLength(x, xs[1..]); }
  }

  function Sum(xs: seq<real>): real {
    if xs == [] then 0.0 else xs[0] + Sum(xs[1..])
  }

  /** The 99th percentile by the method "lower": position `floor(0.99 (n - 1))` of the sorted values; 0 for none. */
  function P99Of(xs: seq<real>): real {
    if xs == [] then 0.0 else Ascending(xs)[(99 * (|xs| - 1)) / 100]
  }

  function MeanOf(xs: seq<real>): real {
    if xs == [] then 0.0 else Sum(xs) / |xs| as real
  }

  /**
   * The figures of a run that did not crash: none when it was aborted or processed nothing. Counts and tokens are
   * over all results but for the total, latencies over the kept ones.
   */
  function Report(ended: RunEnd, processed: seq<RequestResult>, elapsed: real): Option<Stats> {
    if ended.Aborted? || processed == [] then None
    else
      var kept := Last(processed, KEPT_RESULTS);
      SuccessesBounded(processed);
      Some(Stats(
        |kept|, |processed| - Successes(processed),
        if elapsed > 0.0 then Tokens(processed) as real / elapsed else 0.0,
        MeanOf(Latencies(kept)), P99Of(Latencies(kept))))
  }

  /** `_compute_stats` from the engine's counters and kept results; an aborted run reports no figures. */
  method ComputeStats(engine: LoadTestEngine, ended: RunEnd, elapsed: real) returns (report: Option<Stats>)
    requires engine.Valid()
    ensures report == Report(ended, engine.processed, elapsed)
  {
    if ended.Aborted? || engine.results == [] { return None; }
    var latencies := Latencies(engine.results);
    report := Some(Stats(
      |engine.results|, engine.failed,
      if elapsed > 0.0 then engine.tokens as real / elapsed else 0.0,
      MeanOf(latencies), P99Of(latencies)));
  }

  predicate IsAscending(xs: seq<real>) {
    xs == [] || ((forall y | y in xs[1..] :: xs[0] <= y) && IsAscending(xs[1..]))
  }

  lemma {:induction false} InsertedMembers(x: real, xs: seq<real>)
    ensures forall y :: y in Inserted(x, xs) <==> y == x || y in xs
    decreases |xs|
  {
    if xs != [] {
      InsertedMembers(x, xs[1..]);
      assert forall y :: y in xs <==> y == xs[0] || y in xs[1..];
    }
  }

  lemma {:induction false} InsertedAscends(x: real, xs: seq<real>)
    requires IsAscending(xs)
    ensures IsAscending(Inserted(x, xs))
    decreases |xs|
  {
    if xs == [] {
    } else if x <= xs[0] {
      assert ([x] + xs)[1..] == xs;
      forall y | y in xs ensures x <= y { assert y == xs[0] || y in xs[1..]; }
    } else {
      var rest := Inserted(x, xs[1..]);
      InsertedAscends(x, xs[1..]);
      InsertedMembers(x, xs[1..]);
      assert ([xs[0]] + rest)[1..] == rest;
    }
  }

  lemma {:induction false} AscendingFacts(xs: seq<real>)
    ensures IsAscending(Ascending(xs)) && forall y :: y in Ascending(xs) <==> y in xs
    decreases |xs|
  {
    if xs != [] {
      AscendingFacts(xs[1..]);
      InsertedAscends(xs[0], Ascending(xs[1..]));
      InsertedMembers(xs[0], Ascending(xs[1..]));
      assert forall y :: y in xs <==> y == xs[0] || y in xs[1..];
    }
  }

  lemma {:induction false} AscendsTo(xs: seq<real>, i: nat, j: nat)
    requires IsAscending(xs) && i <= j < |xs|
    ensures xs[i] <= xs[j]
    decreases i
  {
    if i == 0 {
      if j > 0 { assert xs[j] == xs[1..][j - 1] && xs[j] in xs[1..]; }
    } else {
      AscendsTo(xs[1..], i - 1, j - 1);
    }
  }

  lemma {:induction false} AscendingKeeps(xs: seq<real>)
    ensures multiset(Ascending(xs)) == multiset(xs)
    decreases |xs|
  {
    if xs != [] {
      AscendingKeeps(xs[1..]);
      InsertedKeeps(xs[0], Ascending(xs[1..]));
      assert xs == [xs[0]] + xs[1..];
    }
  }

  lemma {:induction false} InsertedKeeps(x: real, xs: seq<real>)
    ensures multiset(Inserted(x, xs)) == multiset{x} + multiset(xs)
    decreases |xs|
  {
    if xs != [] {
      InsertedKeeps(x, xs[1..]);
      assert xs == [xs[0]] + xs[1..];
    }
  }

  /**
   * The reported p99 is the value at some position of the sorted values, the last one not beyond 99 hundredths of
   * the way from the first to the last.
   */
  lemma {:induction false} P99IsLatency(xs: seq<real>) returns (k: nat)
    requires xs != []
    ensures P99Of(xs) in xs
    ensures k < |xs| && P99Of(xs) == Ascending(xs)[k] && 100 * k <= 99 * (|xs| - 1) < 100 * (k + 1)
    ensures multiset(Ascending(xs)) == multiset(xs)
    ensures forall i, j | 0 <= i <= j < |xs| :: Ascending(xs)[i] <= Ascending(xs)[j]
  {
    var ys := Ascending(xs);
    k := (99 * (|xs| - 1)) / 100;
    AscendingFacts(xs);
    AscendingKeeps(xs);
    assert ys[k] in ys;
    forall i, j | 0 <= i <= j < |ys| ensures ys[i] <= ys[j] { AscendsTo(ys, i, j); }
  }

  /** How far the values lie from `m`, added up with their signs. */
  function Deviation(xs: seq<real>, m: real): real {
    if xs == [] then 0.0 else xs[0] - m + Deviation(xs[1..], m)
  }

  lemma {:induction false} DeviationIs(xs: seq<real>, m: real)
    ensures Deviation(xs, m) == Sum(xs) - |xs| as real * m
    decreases |xs|
  {
    if xs != [] {
      DeviationIs(xs[1..], m);
      assert |xs| as real * m == |xs[1..]| as real * m + m;
    }
  }

  /** The values lie around their mean. */
  lemma MeanBalances(xs: seq<real>)
    ensures Deviation(xs, MeanOf(xs)) == 0.0
  {
    if xs != [] {
      DeviationIs(xs, MeanOf(xs));
      var n := |xs| as real;
      assert Sum(xs) / n * n == Sum(xs);
    }
  }

  /** Piece by piece, the latencies of the successes in their order, and of no other result. */
  lemma {:induction false} LatenciesInPieces(a: seq<RequestResult>, b: seq<RequestResult>, r: RequestResult)
    ensures Latencies(a + b) == Latencies(a) + Latencies(b)
    ensures Latencies([r]) == if r.success then [r.latency] else []
    decreases |a|
  {
    assert [r][1..] == [];
    if a == [] {
      assert a + b == b;
    } else {
      assert (a + b)[1..] == a[1..] + b;
      LatenciesInPieces(a[1..], b, r);
    }
  }

  lemma {:induction false} SuccessesBounded(rs: seq<RequestResult>)
    ensures Successes(rs) <= |rs|
    ensures Successes(rs) == 0 <==> forall r | r in rs :: !r.success
    decreases |rs|
  {
    if rs != [] {
      var n := |rs| - 1;
      SuccessesBounded(rs[..n]);
      assert rs == rs[..n] + [rs[n]];
    }
  }

  // ----- How others read it

  function TunerReads(r: Option<Stats>): RunResult {
    if r.Some? then RunResult(Some(r.value.throughput), Some(r.value.p99)) else RunResult(None, None)
  }

  // ----- Runs without any success

  lemma {:induction false} NoLatencies(rs: seq<RequestResult>)
    requires forall r | r in rs :: !r.success
    ensures Latencies(rs) == [] && Tokens(rs) == 0
    decreases |rs|
  {
    NoTokens(rs);
    if rs != [] {
      assert forall r | r in rs[1..] :: r in rs;
      NoLatencies(rs[1..]);
    }
  }

  lemma {:induction false} NoTokens(rs: seq<RequestResult>)
    requires forall r | r in rs :: !r.success
    ensures Tokens(rs) == 0
    decreases |rs|
  {
    if rs != [] { NoTokens(rs[..|rs| - 1]); }
  }

  /** Without a success the figures are all zero, but for the counts, which are equal up to a thousand results. */
  lemma {:induction false} FiguresOfFailure(ended: RunEnd, processed: seq<RequestResult>, elapsed: real)
    requires Successes(processed) == 0 && processed != [] && !ended.Aborted?
    ensures var r := Report(ended, processed, elapsed);
            && r == Some(Stats(|Last(processed, KEPT_RESULTS)|, |processed|, 0.0, 0.0, 0.0))
            && (|processed| <= KEPT_RESULTS ==> FailsOpenly(r.value))
  {
    SuccessesBounded(processed);
    NoLatencies(processed);
    var kept := Last(processed, KEPT_RESULTS);
    assert forall r | r in kept :: r in processed;
    NoLatencies(kept);
    if elapsed > 0.0 { assert 0.0 / elapsed == 0.0; }
  }

  /**
   * A run without any success meets the SLA exactly when it reported figures, that is, when it processed something
   * and was not aborted; it then scores 0. (Without figures the p99 latency is taken to be 9999 seconds.)
   */
  lemma {:induction false} FailedRunMeetsSla(ended: RunEnd, processed: seq<RequestResult>, elapsed: real, slaMs: int)
    requires Successes(processed) == 0 && 100 <= slaMs < 9999000
    ensures var run := TunerReads(Report(ended, processed, elapsed));
            && (MeetsSla(P99(run), slaMs) <==> processed != [] && !ended.Aborted?)
            && Tps(run) == 0.0
            && (MeetsSla(P99(run), slaMs) <==> Score(run, slaMs) == 0.0)
  {
    if processed != [] && !ended.Aborted? {
      FiguresOfFailure(ended, processed, elapsed);
    } else {
      var run := TunerReads(Report(ended, processed, elapsed));
      assert run == RunResult(None, None);
      ScoreEmbedsOrder(run, run, slaMs);
    }
  }

  /** It then beats every run that violates the SLA, whatever that one served. */
  lemma {:induction false} FailedRunBeatsViolation(
    ended: RunEnd, processed: seq<RequestResult>, elapsed: real, violating: RunResult, slaMs: int)
    requires Successes(processed) == 0 && processed != [] && !ended.Aborted? && 100 <= slaMs < 9999000
    requires Tps(violating) >= 0.0 && !MeetsSla(P99(violating), slaMs)
    ensures Score(TunerReads(Report(ended, processed, elapsed)), slaMs) > Score(violating, slaMs)
  {
    FailedRunMeetsSla(ended, processed, elapsed, slaMs);
    ScoreEmbedsOrder(TunerReads(Report(ended, processed, elapsed)), violating, slaMs);
  }

  /**
   * In a sweep, a step whose run failed every request counts as unsaturated exactly when the run reported nothing
   * (tolerated error rates below 1, and runs of at most a thousand results).
   */
  lemma {:induction false} FailedStepIsSaturated(
    c: SweepConfig, firstP99: real, ended: RunEnd, processed: seq<RequestResult>, elapsed: real)
    requires Successes(processed) == 0 && |processed| <= KEPT_RESULTS
    requires 0.0 <= c.errorRate < 1.0 && c.latencyFactor >= 1.0
    ensures var report := Report(ended, processed, elapsed);
            !IsSaturated(c, firstP99, if report.Some? then report.value else Stats(0, 0, 0.0, 0.0, 0.0)) <==>
            ended.Aborted? || processed == []
  {
    if processed != [] && !ended.Aborted? {
      FiguresOfFailure(ended, processed, elapsed);
      FailsOpenlySaturates(c, firstP99, Report(ended, processed, elapsed).value);
    } else {
      NoFiguresAreHealthy(c, firstP99);
    }
  }

  /**
   * One run and its report, as the tuner evaluates a trial. When every request failed, the SLA counts as met exactly
   * if something was processed and the first requests did not all fail with one common error.
   */
  method Probe(
    engine: LoadTestEngine, total: nat, outcome: nat -> Outcome, stops: nat -> bool, elapsed: real, slaMs: int)
    returns (ended: RunEnd, run: RunResult)
    requires engine.Valid() && engine.processed == [] && engine.order == [] && OwnIds(outcome)
    requires 100 <= slaMs < 9999000
    modifies engine
    ensures !ended.Crashed? ==>
              match Report(ended, engine.processed, elapsed)
              case Some(figures) => run.tps == Some(figures.throughput) && run.p99 == Some(figures.p99)
              case None => run == RunResult(None, None)
    ensures !ended.Crashed? && Successes(engine.processed) == 0 ==>
              (MeetsSla(P99(run), slaMs) <==>
               engine.processed != [] && forall e :: !FirstBatchFailed(engine.processed, FirstBatch(total), e))
    ensures ended.Crashed? ==> exists t: nat | t < total :: !outcome(t).Returned?
  {
    var created;
    ended, created := engine.RunLoad(total, outcome, stops);
    run := RunResult(None, None);
    if !ended.Crashed? {
      var report := ComputeStats(engine, ended, elapsed);
      run := TunerReads(report);
      if Successes(engine.processed) == 0 { FailedRunMeetsSla(ended, engine.processed, elapsed, slaMs); }
    }
  }
}
