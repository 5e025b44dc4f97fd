/** Load sweeps: steps of growing request rate until the service saturates. */
module Sweep {
  import opened PatchAlgebra

  /** What a step measured; a value the run did not report is 0. */
  datatype Stats = Stats(total: nat, failed: nat, throughput: real, meanLatency: real, p99: real)

  datatype Step = Step(number: nat, rps: int, stats: Stats, saturated: bool)

  datatype SweepConfig = SweepConfig(
    rpsStart: int, rpsEnd: int, rpsStep: int, errorRate: real, latencyFactor: real, minStableSteps: int)

  datatype Ended = Stopped | FailingThrice | AtSaturation | RangeExhausted

  // ----- The knee

  function ErrorRate(s: Stats): real {
    s.failed as real / (if s.total > 1 then s.total else 1) as real
  }

  /** The error rate compared without division; no results count as one. */
  lemma ErrorRateExactly(s: Stats, x: real)
    ensures ErrorRate(s) > x <==> s.failed as real > x * (if s.total >= 1 then s.total else 1) as real
  {
    var n := (if s.total >= 1 then s.total else 1) as real;
    var e := ErrorRate(s);
    assert e * n == s.failed as real;
    if e > x { OrderedProducts(x, e, n); }
    if e < x { OrderedProducts(e, x, n); }
  }

  lemma OrderedProducts(a: real, b: real, c: real)
    requires a < b && c > 0.0
    ensures a * c < b * c
  {
    assert b * c - a * c == (b - a) * c;
    PositiveTimes(b - a, c);
  }

  lemma PositiveTimes(a: real, b: real)
    requires a > 0.0 && b > 0.0
    ensures a * b > 0.0
  {
  }

  predicate Eligible(s: Stats, maxErrorRate: real) {
    s.total > 0 && ErrorRate(s) <= maxErrorRate && s.throughput > 0.0 && s.meanLatency > 0.0
  }

  /** Kleinrock power. */
  function Power(s: Stats): real
    requires s.meanLatency > 0.0
  {
    s.throughput / s.meanLatency
  }

  /** The first maximizer of the power among the eligible steps. */
  ghost predicate IsKnee(steps: seq<Step>, maxErrorRate: real, k: int) {
    && 0 <= k < |steps| && Eligible(steps[k].stats, maxErrorRate)
    && forall j | 0 <= j < |steps| && Eligible(steps[j].stats, maxErrorRate) ::
         && (j < k ==> Power(steps[j].stats) < Power(steps[k].stats))
         && Power(steps[j].stats) <= Power(steps[k].stats)
  }

  method FindKneeRps(steps: seq<Step>, maxErrorRate: real) returns (bestRps: Option<int>)
    ensures bestRps.None? <==> forall k | 0 <= k < |steps| :: !Eligible(steps[k].stats, maxErrorRate)
    ensures bestRps.Some? ==> exists k :: IsKnee(steps, maxErrorRate, k) && bestRps.value == steps[k].rps
  {
    bestRps := None;
    var bestPower := 0.0;
    ghost var at := -1;
    for i := 0 to |steps|
      invariant bestRps.None? <==> forall k | 0 <= k < i :: !Eligible(steps[k].stats, maxErrorRate)
      invariant bestRps.None? ==> bestPower == 0.0
      invariant bestRps.Some? ==>
                  && IsKnee(steps[..i], maxErrorRate, at)
                  && bestRps.value == steps[at].rps && bestPower == Power(steps[at].stats)
    {
      var s := steps[i].stats;
      if s.total <= 0 || ErrorRate(s) > maxErrorRate { continue; }
      if s.throughput <= 0.0 || s.meanLatency <= 0.0 { continue; }
      var power := s.throughput / s.meanLatency;
      QuotientOfPositives(s.throughput, s.meanLatency);
      if power > bestPower {
        bestPower, bestRps, at := power, Some(steps[i].rps), i;
      }
    }
    assert steps[..|steps|] == steps;
  }

  lemma QuotientOfPositives(a: real, b: real)
    requires a > 0.0 && b > 0.0
    ensures a / b > 0.0
  {
  }

  // ----- Saturation

  predicate IsSaturated(c: SweepConfig, firstP99: real, s: Stats) {
    ErrorRate(s) > c.errorRate || (firstP99 > 0.0 && s.p99 > firstP99 * c.latencyFactor)
  }

  predicate FailedAll(s: Stats) {
    s.total > 0 && s.failed == s.total
  }

  /** The `m` steps before position `k` are all saturated. */
  predicate WindowAt(steps: seq<Step>, m: int, k: int) {
    0 <= k - m && k <= |steps| && forall j | 0 <= k - m <= j < k <= |steps| :: steps[j].saturated
  }

  predicate ThriceAt(steps: seq<Step>, k: int) {
    3 <= k <= |steps| && forall j | 0 <= k - 3 <= j < k <= |steps| :: FailedAll(steps[j].stats)
  }

  /** The rate of step `i`: an arithmetic progression within the range. */
  predicate Progression(c: SweepConfig, steps: seq<Step>) {
    && (steps != [] ==> steps[0].rps == c.rpsStart)
    && (forall i | 0 <= i < |steps| :: steps[i].number == i + 1 && steps[i].rps <= c.rpsEnd)
    && (forall i | 1 <= i < |steps| :: steps[i].rps == steps[i - 1].rps + c.rpsStep)
  }

  predicate Judged(c: SweepConfig, steps: seq<Step>) {
    forall i | 0 <= i < |steps| :: steps[i].saturated == IsSaturated(c, steps[0].stats.p99, steps[i].stats)
  }

  function NextRps(c: SweepConfig, steps: seq<Step>): int {
    if steps == [] then c.rpsStart else steps[|steps| - 1].rps + c.rpsStep
  }

  /** The steps of a sweep: only the last one may close a window, and no three in a row failed completely. */
  ghost predicate Taken(c: SweepConfig, steps: seq<Step>) {
    && Progression(c, steps) && Judged(c, steps)
    && (forall k | 0 <= k < |steps| :: !WindowAt(steps, c.minStableSteps, k))
    && (forall k | 0 <= k <= |steps| :: !ThriceAt(steps, k))
  }

  predicate IsRun(steps: seq<Step>, n: nat) {
    n <= |steps| && forall j | 0 <= |steps| - n <= j < |steps| :: steps[j].saturated
  }

  predicate IsFailedRun(steps: seq<Step>, n: nat) {
    n <= |steps| && forall j | 0 <= |steps| - n <= j < |steps| :: FailedAll(steps[j].stats)
  }

  /** The number of saturated steps at the end. */
  ghost predicate Trailing(steps: seq<Step>, n: nat) {
    IsRun(steps, n) && (n < |steps| ==> !steps[|steps| - 1 - n].saturated)
  }

  ghost predicate TrailingFailed(steps: seq<Step>, n: nat) {
    IsFailedRun(steps, n) && (n < |steps| ==> !FailedAll(steps[|steps| - 1 - n].stats))
  }

  lemma {:induction false} TakeOneMore(c: SweepConfig, steps: seq<Step>, s: Step, run: nat, failedRun: nat)
    requires c.minStableSteps >= 1 && Taken(c, steps) && !WindowAt(steps, c.minStableSteps, |steps|)
    requires Trailing(steps, run) && TrailingFailed(steps, failedRun)
    requires s.number == |steps| + 1 && s.rps == NextRps(c, steps) && s.rps <= c.rpsEnd
    requires s.saturated == IsSaturated(c, (steps + [s])[0].stats.p99, s.stats)
    requires FailedAll(s.stats) ==> failedRun < 2
    ensures Taken(c, steps + [s])
    ensures Trailing(steps + [s], if s.saturated then run + 1 else 0)
    ensures TrailingFailed(steps + [s], if FailedAll(s.stats) then failedRun + 1 else 0)
  {
    hide IsSaturated, FailedAll;
    WindowsOfPrefix(steps, s, c.minStableSteps);
    ThriceOfPrefix(steps, s);
    if |steps| >= 2 {
      if FailedAll(s.stats) {
        assert !FailedAll((steps + [s])[|steps| - 1 - failedRun].stats);
      } else {
        assert !FailedAll((steps + [s])[|steps|].stats);
      }
    }
  }

  lemma WindowsOfPrefix(steps: seq<Step>, s: Step, m: int)
    requires m >= 1
    ensures forall k | 0 <= k <= |steps| :: WindowAt(steps + [s], m, k) <==> WindowAt(steps, m, k)
  {
    forall k | 0 <= k <= |steps| ensures WindowAt(steps + [s], m, k) <==> WindowAt(steps, m, k) {
      assert forall j | 0 <= j < k :: (steps + [s])[j] == steps[j];
    }
  }

  lemma ThriceOfPrefix(steps: seq<Step>, s: Step)
    ensures forall k | 0 <= k <= |steps| :: ThriceAt(steps + [s], k) <==> ThriceAt(steps, k)
  {
    hide FailedAll;
    forall k | 0 <= k <= |steps| ensures ThriceAt(steps + [s], k) <==> ThriceAt(steps, k) {
      assert forall j | 0 <= j < k :: (steps + [s])[j] == steps[j];
    }
  }

  /** A trailing run of `n` saturated steps closes a window of `m` exactly when it is long enough. */
  lemma RunClosesWindow(steps: seq<Step>, n: nat, m: int)
    requires m >= 1 && Trailing(steps, n)
    ensures WindowAt(steps, m, |steps|) <==> n >= m
  {
    if n < m <= |steps| {
      assert !steps[|steps| - 1 - n].saturated;
    }
  }

  lemma {:induction false} RatesGrow(c: SweepConfig, steps: seq<Step>, i: nat, j: nat)
    requires c.rpsStep >= 1 && Progression(c, steps) && i < j < |steps|
    ensures steps[i].rps < steps[j].rps
    decreases j
  {
    if i < j - 1 { RatesGrow(c, steps, i, j - 1); }
  }

  /** The last step that was not saturated. */
  ghost predicate IsOptimal(steps: seq<Step>, k: int) {
    0 <= k < |steps| && !steps[k].saturated && forall j | k < j < |steps| :: steps[j].saturated
  }

  method LastUnsaturated(steps: seq<Step>) returns (rps: Option<int>)
    ensures rps.None? <==> forall k | 0 <= k < |steps| :: steps[k].saturated
    ensures rps.Some? ==> exists k :: IsOptimal(steps, k) && rps.value == steps[k].rps
  {
    rps := None;
    ghost var at := -1;
    for i := 0 to |steps|
      invariant rps.None? <==> forall k | 0 <= k < i :: steps[k].saturated
      invariant rps.Some? ==> IsOptimal(steps[..i], at) && rps.value == steps[at].rps
    {
      if !steps[i].saturated { rps, at := Some(steps[i].rps), i; }
    }
    assert steps[..|steps|] == steps;
  }

  // ----- Whole sweeps

  /** The steps of a sweep that measured `measure(i)` at step `i` and was stopped when `stops(i)` says so. */
  ghost predicate IsSweep(
    c: SweepConfig, measure: nat -> Stats, stops: nat -> bool, steps: seq<Step>, ended: Ended)
  {
    && Taken(c, steps)
    && (forall i | 0 <= i < |steps| :: steps[i].stats == measure(i) && !stops(i))
    && (ended.AtSaturation? <==> WindowAt(steps, c.minStableSteps, |steps|))
    && (ended.RangeExhausted? ==> NextRps(c, steps) > c.rpsEnd)
    && (!ended.RangeExhausted? && !ended.AtSaturation? ==> NextRps(c, steps) <= c.rpsEnd)
    && (ended.FailingThrice? ==> IsFailedRun(steps, 2) && FailedAll(measure(|steps|)) && !stops(|steps|))
    && (ended.Stopped? ==> stops(|steps|))
  }

  /**
   * A sweep. The saturation point is the rate that closes the first window of `minStableSteps` consecutive saturated
   * steps, and there is one exactly when the sweep ended there; a sweep ended by three complete failures drops the
   * last of them. The optimal rate lies strictly below the saturation point, with only saturated steps above it.
   */
  method RunSweep(c: SweepConfig, measure: nat -> Stats, stops: nat -> bool)
    returns (steps: seq<Step>, ended: Ended, saturationPoint: Option<int>, optimalRps: Option<int>,
             kneeRps: Option<int>)
    requires c.rpsStep >= 1 && c.minStableSteps >= 1
    ensures IsSweep(c, measure, stops, steps, ended)
    ensures saturationPoint.Some? <==> ended.AtSaturation?
    ensures saturationPoint.Some? ==> steps != [] && saturationPoint.value == steps[|steps| - 1].rps
    ensures optimalRps.Some? <==> saturationPoint.Some? && exists k | 0 <= k < |steps| :: !steps[k].saturated
    ensures optimalRps.Some? ==>
              && optimalRps.value < saturationPoint.value
              && exists k :: IsOptimal(steps, k) && optimalRps.value == steps[k].rps
    ensures kneeRps.None? <==> forall k | 0 <= k < |steps| :: !Eligible(steps[k].stats, c.errorRate)
    ensures kneeRps.Some? ==> exists k :: IsKnee(steps, c.errorRate, k) && kneeRps.value == steps[k].rps
  {
    steps, ended, saturationPoint := TakeSteps(c, measure, stops);
    optimalRps := None;
    if saturationPoint.Some? {
      optimalRps := LastUnsaturated(steps);
      if optimalRps.Some? { OptimalIsBelow(c, steps); }
    }
    kneeRps := FindKneeRps(steps, c.errorRate);
  }

  lemma OptimalIsBelow(c: SweepConfig, steps: seq<Step>)
    requires c.rpsStep >= 1 && c.minStableSteps >= 1 && Taken(c, steps) && WindowAt(steps, c.minStableSteps, |steps|)
    ensures forall k | IsOptimal(steps, k) :: steps[k].rps < steps[|steps| - 1].rps
  {
    forall k | IsOptimal(steps, k) ensures steps[k].rps < steps[|steps| - 1].rps {
      RatesGrow(c, steps, k, |steps| - 1);
    }
  }

  /** The steps of a sweep, taken until it saturates, fails three times, is stopped, or covers its range. */
  method TakeSteps(c: SweepConfig, measure: nat -> Stats, stops: nat -> bool)
    returns (steps: seq<Step>, ended: Ended, saturationPoint: Option<int>)
    requires c.rpsStep >= 1 && c.minStableSteps >= 1
    ensures IsSweep(c, measure, stops, steps, ended)
    ensures saturationPoint.Some? <==> ended.AtSaturation?
    ensures saturationPoint.Some? ==> steps != [] && saturationPoint.value == steps[|steps| - 1].rps
  {
    hide IsSaturated, FailedAll, WindowAt, Taken, Trailing, TrailingFailed;
    steps, saturationPoint := [], None;
    NoSteps(c);
    var firstP99 := 0.0;
    var failedRun, run, rps := 0, 0, c.rpsStart;
    while rps <= c.rpsEnd
      invariant Taken(c, steps) && !WindowAt(steps, c.minStableSteps, |steps|) && saturationPoint.None?
      invariant run >= 0 && failedRun >= 0 && Trailing(steps, run) && TrailingFailed(steps, failedRun)
      invariant rps == NextRps(c, steps) && (steps != [] ==> firstP99 == steps[0].stats.p99)
      invariant forall i | 0 <= i < |steps| :: steps[i].stats == measure(i) && !stops(i)
      decreases c.rpsEnd - rps
    {
      if stops(|steps|) { return steps, Stopped, None; }
      var stats := measure(|steps|);
      if FailedAll(stats) && failedRun >= 2 {
        LastTwo(steps, failedRun);
        return steps, FailingThrice, None;
      }
      if steps == [] { firstP99 := stats.p99; }
      var step := Step(|steps| + 1, rps, stats, IsSaturated(c, firstP99, stats));
      TakeOneMore(c, steps, step, run, failedRun);
      failedRun := if FailedAll(stats) then failedRun + 1 else 0;
      run := if step.saturated then run + 1 else 0;
      steps := steps + [step];
      RunClosesWindow(steps, run, c.minStableSteps);
      if run >= c.minStableSteps { return steps, AtSaturation, Some(rps); }
      rps := rps + c.rpsStep;
    }
    ended := RangeExhausted;
  }

  lemma NoSteps(c: SweepConfig)
    requires c.minStableSteps >= 1
    ensures Taken(c, []) && !WindowAt([], c.minStableSteps, 0) && Trailing([], 0) && TrailingFailed([], 0)
  {
  }

  lemma LastTwo(steps: seq<Step>, n: nat)
    requires TrailingFailed(steps, n) && n >= 2
    ensures IsFailedRun(steps, 2)
  {
  }

  // ----- Sweeps over a service that fails

  /** With three or more stable steps required, a saturated window holds a step that did not fail completely. */
  lemma LongWindowServes(c: SweepConfig, steps: seq<Step>, k: int)
    requires c.minStableSteps >= 3 && Taken(c, steps) && WindowAt(steps, c.minStableSteps, k)
    ensures exists j | k - 3 <= j < k :: steps[j].stats.total == 0 || steps[j].stats.failed != steps[j].stats.total
  {
    assert !ThriceAt(steps, k);
  }

  /** Figures of a step whose run failed every request, and reported it: all failed, and no latency. */
  predicate FailsOpenly(s: Stats) {
    s.total > 0 && s.failed == s.total && s.p99 == 0.0
  }

  lemma FailsOpenlySaturates(c: SweepConfig, firstP99: real, s: Stats)
    requires FailsOpenly(s) && c.latencyFactor >= 1.0
    ensures IsSaturated(c, firstP99, s) <==> c.errorRate < 1.0
  {
    assert ErrorRate(s) == 1.0;
    if firstP99 > 0.0 { assert firstP99 * c.latencyFactor >= firstP99 * 1.0; }
  }

  /** A sweep that does not end earlier gets to step `i`: its rate is in the range, and no stop comes before it. */
  predicate Reaches(c: SweepConfig, stops: nat -> bool, i: nat) {
    c.rpsStart + i * c.rpsStep <= c.rpsEnd && forall j: nat | j <= i :: !stops(j)
  }

  lemma FewFailingSteps(
    c: SweepConfig, measure: nat -> Stats, stops: nat -> bool, steps: seq<Step>, ended: Ended)
    requires IsSweep(c, measure, stops, steps, ended) && c.minStableSteps >= 1 && c.latencyFactor >= 1.0
    requires forall i :: FailsOpenly(measure(i))
    ensures |steps| <= 2 && forall i | 0 <= i < |steps| :: steps[i].saturated <==> c.errorRate < 1.0
    ensures ended.AtSaturation? <==> |steps| == c.minStableSteps && c.errorRate < 1.0
    ensures c.errorRate < 1.0 ==> |steps| <= c.minStableSteps
  {
    forall i | 0 <= i < |steps| ensures steps[i].saturated <==> c.errorRate < 1.0 {
      FailsOpenlySaturates(c, steps[0].stats.p99, steps[i].stats);
    }
    assert forall i | 0 <= i < |steps| :: FailedAll(steps[i].stats) by {
      forall i | 0 <= i < |steps| ensures FailedAll(steps[i].stats) { assert FailsOpenly(measure(i)); }
    }
    hide IsSaturated, FailedAll, FailsOpenly;
    assert |steps| >= 3 ==> ThriceAt(steps, 3);
    assert ended.AtSaturation? ==> steps[|steps| - 1].saturated;
    assert c.minStableSteps < |steps| && c.errorRate < 1.0 ==> WindowAt(steps, c.minStableSteps, c.minStableSteps);
    assert c.minStableSteps <= |steps| && c.errorRate < 1.0 ==> WindowAt(steps, c.minStableSteps, |steps|);
  }

  /**
   * A service that fails every request of every step, and whose runs report so, counts as saturated exactly when at
   * most two stable steps are required, the tolerated error rate is below 1, and the sweep gets as far as that many
   * steps; when it does not count as saturated, the sweep ends at the third failure if it gets that far.
   */
  lemma FailingServiceSaturates(
    c: SweepConfig, measure: nat -> Stats, stops: nat -> bool, steps: seq<Step>, ended: Ended)
    requires IsSweep(c, measure, stops, steps, ended)
    requires c.rpsStep >= 1 && c.minStableSteps >= 1 && c.latencyFactor >= 1.0
    requires forall i :: FailsOpenly(measure(i))
    ensures ended.AtSaturation? <==>
              c.minStableSteps <= 2 && c.errorRate < 1.0 && Reaches(c, stops, c.minStableSteps - 1)
    ensures ended.FailingThrice? <==> !(c.minStableSteps <= 2 && c.errorRate < 1.0) && Reaches(c, stops, 2)
    ensures ended.AtSaturation? ==> |steps| == c.minStableSteps
    ensures ended.FailingThrice? ==> |steps| == 2
  {
    FewFailingSteps(c, measure, stops, steps, ended);
    hide Judged, FailsOpenly, FailedAll, WindowAt, ThriceAt;
    assert steps != [] ==> steps[|steps| - 1].rps == c.rpsStart + (|steps| - 1) * c.rpsStep;
    assert NextRps(c, steps) == c.rpsStart + |steps| * c.rpsStep;
  }

  /**
   * Too many failures, or a tail latency beyond the factor times that of the first step; told without division and
   * without reference to a step's own verdict.
   */
  predicate Overloaded(c: SweepConfig, firstP99: real, s: Stats) {
    || s.failed as real > c.errorRate * (if s.total >= 1 then s.total else 1) as real
    || (firstP99 > 0.0 && s.p99 > firstP99 * c.latencyFactor)
  }

  lemma SaturatedExactly(c: SweepConfig, firstP99: real, s: Stats)
    ensures IsSaturated(c, firstP99, s) <==> Overloaded(c, firstP99, s)
  {
    ErrorRateExactly(s, c.errorRate);
    hide ErrorRate;
  }

  /** Healthy up to step `d`, overloaded from there on, and never failing completely. */
  ghost predicate Degrades(c: SweepConfig, measure: nat -> Stats, d: nat) {
    forall i: nat ::
      && (Overloaded(c, measure(0).p99, measure(i)) <==> i >= d)
      && (measure(i).failed < measure(i).total || measure(i).failed == 0)
  }

  lemma {:induction false} DegradingSteps(
    c: SweepConfig, measure: nat -> Stats, stops: nat -> bool, steps: seq<Step>, ended: Ended, d: nat)
    requires IsSweep(c, measure, stops, steps, ended) && c.minStableSteps >= 1 && Degrades(c, measure, d)
    ensures forall i | 0 <= i < |steps| :: steps[i].saturated <==> i >= d
    ensures |steps| <= d + c.minStableSteps && !ended.FailingThrice?
    ensures ended.AtSaturation? <==> |steps| == d + c.minStableSteps
  {
    forall i | 0 <= i < |steps| ensures steps[i].saturated <==> i >= d {
      assert steps[i].stats == measure(i) && steps[0].stats == measure(0);
      SaturatedExactly(c, measure(0).p99, measure(i));
    }
    assert !FailedAll(measure(|steps|)) by { assert measure(|steps|).total >= 0; }
    hide IsSaturated, FailedAll, Overloaded, Degrades;
    var m := c.minStableSteps;
    assert |steps| > d + m ==> WindowAt(steps, m, d + m);
    assert |steps| == d + m ==> WindowAt(steps, m, d + m);
    if WindowAt(steps, m, |steps|) { assert steps[|steps| - m].saturated; }
  }

  /**
   * A service that is healthy up to some step and overloaded from there on is found saturated exactly when the sweep
   * gets as many steps into the overload as are required; the optimal rate is then that of the last healthy step.
   */
  lemma {:induction false} DegradingServiceSaturates(
    c: SweepConfig, measure: nat -> Stats, stops: nat -> bool, steps: seq<Step>, ended: Ended, d: nat)
    requires IsSweep(c, measure, stops, steps, ended)
    requires c.rpsStep >= 1 && c.minStableSteps >= 1 && Degrades(c, measure, d)
    ensures ended.AtSaturation? <==> Reaches(c, stops, d + c.minStableSteps - 1)
    ensures ended.AtSaturation? ==>
              && steps[|steps| - 1].rps == c.rpsStart + (d + c.minStableSteps - 1) * c.rpsStep
              && (d > 0 ==> IsOptimal(steps, d - 1) && steps[d - 1].rps == c.rpsStart + (d - 1) * c.rpsStep)
              && (d == 0 ==> forall k :: !IsOptimal(steps, k))
  {
    DegradingSteps(c, measure, stops, steps, ended, d);
    hide Judged, Degrades, FailedAll, WindowAt, ThriceAt;
    var m := c.minStableSteps;
    forall i: nat | i < |steps| ensures steps[i].rps == c.rpsStart + i * c.rpsStep {
      RateAt(c, steps, i);
    }
    NextRate(c, steps);
    if !ended.AtSaturation? {
      RateOrder(c, |steps|, d + m - 1);
    } else {
      RateAt(c, steps, |steps| - 1);
    }
  }

  lemma {:induction false} RateAt(c: SweepConfig, steps: seq<Step>, i: nat)
    requires Progression(c, steps) && i < |steps|
    ensures steps[i].rps == c.rpsStart + i * c.rpsStep
    decreases i
  {
    if i > 0 { RateAt(c, steps, i - 1); }
  }

  lemma NextRate(c: SweepConfig, steps: seq<Step>)
    requires Progression(c, steps)
    ensures NextRps(c, steps) == c.rpsStart + |steps| * c.rpsStep
  {
    if steps != [] { RateAt(c, steps, |steps| - 1); }
  }

  lemma RateOrder(c: SweepConfig, i: nat, j: nat)
    requires c.rpsStep >= 1 && i <= j
    ensures c.rpsStart + i * c.rpsStep <= c.rpsStart + j * c.rpsStep
  {
    assert (j - i) * c.rpsStep >= 0;
  }

  /** What a sweep makes of a run that reported no figures. */
  const NO_FIGURES: Stats := Stats(0, 0, 0.0, 0.0, 0.0)

  lemma WindowEndsSaturated(steps: seq<Step>, m: int, k: int)
    requires m >= 1 && WindowAt(steps, m, k)
    ensures 1 <= k <= |steps| && steps[k - 1].saturated
  {
  }

  lemma NoFiguresAreHealthy(c: SweepConfig, firstP99: real)
    requires c.errorRate >= 0.0 && c.latencyFactor >= 1.0
    ensures !IsSaturated(c, firstP99, NO_FIGURES) && !FailedAll(NO_FIGURES)
  {
    if firstP99 > 0.0 { assert firstP99 * c.latencyFactor >= firstP99 * 1.0; }
  }

  /** A service whose runs report nothing is swept over the whole range, without a saturated step. */
  lemma SilentServiceIsNeverSaturated(
    c: SweepConfig, measure: nat -> Stats, stops: nat -> bool, steps: seq<Step>, ended: Ended)
    requires IsSweep(c, measure, stops, steps, ended) && c.minStableSteps >= 1
    requires c.errorRate >= 0.0 && c.latencyFactor >= 1.0 && forall i :: measure(i) == NO_FIGURES
    ensures ended.RangeExhausted? || ended.Stopped?
    ensures forall i | 0 <= i < |steps| :: !steps[i].saturated
  {
    forall i | 0 <= i < |steps| ensures !steps[i].saturated {
      NoFiguresAreHealthy(c, steps[0].stats.p99);
      assert steps[i].stats == measure(i);
    }
    NoFiguresAreHealthy(c, 0.0);
    hide IsSaturated, FailedAll;
    if ended.AtSaturation? { WindowEndsSaturated(steps, c.minStableSteps, |steps|); }
    assert ended.FailingThrice? ==> FailedAll(NO_FIGURES);
  }

  /** A sweep whose optimal rate is one at which the run reported nothing, hence possibly served nothing. */
  lemma SilentStepMayBeOptimal()
    ensures var c := SweepConfig(1, 10, 5, 0.1, 3.0, 1);
            var failing := Stats(10, 10, 0.0, 0.0, 0.0);
            var measure := (i: nat) => if i == 0 then NO_FIGURES else failing;
            var steps := [Step(1, 1, NO_FIGURES, false), Step(2, 6, failing, true)];
            IsSweep(c, measure, i => false, steps, AtSaturation) && IsOptimal(steps, 0)
  {
    var c := SweepConfig(1, 10, 5, 0.1, 3.0, 1);
    var failing := Stats(10, 10, 0.0, 0.0, 0.0);
    var steps := [Step(1, 1, NO_FIGURES, false), Step(2, 6, failing, true)];
    FailsOpenlySaturates(c, 0.0, failing);
    NoFiguresAreHealthy(c, 0.0);
    hide IsSaturated, FailedAll;
    assert steps[0].stats == NO_FIGURES && steps[1].stats == failing;
    assert !WindowAt(steps, 1, 0);
    assert !steps[0].saturated && !WindowAt(steps, 1, 1);
    assert steps[1].saturated && WindowAt(steps, 1, 2);
    assert Progression(c, steps) && Judged(c, steps);
    assert forall k | 0 <= k <= 2 :: !ThriceAt(steps, k);
  }
}
