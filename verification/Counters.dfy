/** Rates from cumulative counters and histograms, scrape by scrape. */
module Counters {
  import opened PatchAlgebra
  import opened Metrics

  datatype Counter = Unseen | Seen(value: real, ts: real)

  datatype Scrape = Scrape(value: real, now: real)

  // ----- One counter

  function Next(c: Counter, s: Scrape): Counter {
    if c.Seen? && s.now - c.ts <= 0.0 then c else Seen(s.value, s.now)
  }

  function Rate(c: Counter, s: Scrape): real {
    if c.Unseen? || s.now - c.ts <= 0.0 || s.value < c.value then 0.0
    else (s.value - c.value) / (s.now - c.ts)
  }

  /** The time the rate speaks of. */
  function Elapsed(c: Counter, s: Scrape): real {
    if c.Unseen? then 0.0 else s.now - c.ts
  }

  /** How far the counter fell at a reset. */
  function Drop(c: Counter, s: Scrape): real {
    if c.Seen? && s.now - c.ts > 0.0 && s.value < c.value then c.value - s.value else 0.0
  }

  // ----- Any sequence of scrapes

  function After(c: Counter, ss: seq<Scrape>): Counter
    decreases |ss|
  {
    if ss == [] then c else After(Next(c, ss[0]), ss[1..])
  }

  function Increase(c: Counter, ss: seq<Scrape>): real
    decreases |ss|
  {
    if ss == [] then 0.0 else Rate(c, ss[0]) * Elapsed(c, ss[0]) + Increase(Next(c, ss[0]), ss[1..])
  }

  function Drops(c: Counter, ss: seq<Scrape>): real
    decreases |ss|
  {
    if ss == [] then 0.0 else Drop(c, ss[0]) + Drops(Next(c, ss[0]), ss[1..])
  }

  lemma StepConserves(c: Counter, s: Scrape)
    requires c.Seen?
    ensures Rate(c, s) >= 0.0 && Drop(c, s) >= 0.0 && Next(c, s).Seen?
    ensures Rate(c, s) * Elapsed(c, s) == Next(c, s).value - c.value + Drop(c, s)
  {
    var dt := s.now - c.ts;
    if dt > 0.0 && s.value >= c.value {
      var d := s.value - c.value;
      assert d / dt * dt == d;
      NonNegativeQuotient(d, dt);
    }
  }

  lemma NonNegativeQuotient(d: real, dt: real)
    requires d >= 0.0 && dt > 0.0
    ensures d / dt >= 0.0
  {
    var f := d / dt;
    assert f * dt == d;
    if f < 0.0 { NegativeProduct(f, dt); }
  }

  lemma NegativeProduct(a: real, b: real)
    requires a < 0.0 && b > 0.0
    ensures a * b < 0.0
  {
  }

  /** Rates times elapsed times account for the whole growth: what the counter gained plus what resets took away. */
  lemma {:induction false} RatesConserve(c: Counter, ss: seq<Scrape>)
    requires c.Seen?
    ensures After(c, ss).Seen?
    ensures Increase(c, ss) == After(c, ss).value - c.value + Drops(c, ss)
    decreases |ss|
  {
    if ss != [] {
      StepConserves(c, ss[0]);
      RatesConserve(Next(c, ss[0]), ss[1..]);
    }
  }

  /** From the very first scrape on. */
  lemma FirstScrapeConserves(first: Scrape, ss: seq<Scrape>)
    ensures After(Unseen, [first] + ss).Seen?
    ensures Increase(Unseen, [first] + ss) ==
            After(Unseen, [first] + ss).value - first.value + Drops(Unseen, [first] + ss)
  {
    assert ([first] + ss)[1..] == ss;
    RatesConserve(Seen(first.value, first.now), ss);
  }

  lemma StaleStep(c: Counter, stale: Scrape)
    requires c.Seen? && stale.now <= c.ts
    ensures Next(c, stale) == c && Rate(c, stale) * Elapsed(c, stale) == 0.0
  {
    assert Rate(c, stale) == 0.0;
  }

  /** A scrape that is not later than the last one loses nothing: leaving it out changes neither sum nor state. */
  lemma {:induction false} StaleScrapeIsHarmless(c: Counter, before: seq<Scrape>, stale: Scrape, rest: seq<Scrape>)
    requires After(c, before).Seen? && stale.now <= After(c, before).ts
    ensures After(c, before + [stale] + rest) == After(c, before + rest)
    ensures Increase(c, before + [stale] + rest) == Increase(c, before + rest)
    decreases |before|
  {
    if before == [] {
      assert before + [stale] + rest == [stale] + rest && before + rest == rest;
      assert ([stale] + rest)[1..] == rest;
      StaleStep(c, stale);
      hide Next, Rate, Elapsed;
    } else {
      hide Next, Rate, Elapsed;
      assert (before + [stale] + rest)[1..] == before[1..] + [stale] + rest;
      assert (before + rest)[1..] == before[1..] + rest;
      StaleScrapeIsHarmless(Next(c, before[0]), before[1..], stale, rest);
    }
  }

  // ----- Histograms: two snapshots of cumulative buckets

  /** `prev.get(le, 0.0)` */
  function CountAt(prev: seq<Bucket>, bound: Bound): real {
    if prev == [] then 0.0 else if prev[0].bound == bound then prev[0].count else CountAt(prev[1..], bound)
  }

  function Deltas(prev: seq<Bucket>, current: seq<Bucket>): seq<Bucket> {
    if current == [] then []
    else [Bucket(current[0].bound, MaxReal(0.0, current[0].count - CountAt(prev, current[0].bound)))]
         + Deltas(prev, current[1..])
  }

  function PerSecond(deltas: seq<Bucket>, elapsed: real): seq<Bucket> {
    if deltas == [] then []
    else [Bucket(deltas[0].bound, if elapsed > 0.0 then deltas[0].count / elapsed else 0.0)]
         + PerSecond(deltas[1..], elapsed)
  }

  function Zeros(current: seq<Bucket>): seq<Bucket> {
    if current == [] then [] else [Bucket(current[0].bound, 0.0)] + Zeros(current[1..])
  }

  function HistogramRates(prev: seq<Bucket>, current: seq<Bucket>, elapsed: real): seq<Bucket> {
    if prev == [] then Zeros(current) else Sorted(PerSecond(Deltas(prev, current), elapsed))
  }

  lemma TimesInverse(x: real, e: real)
    requires e > 0.0
    ensures x / e == Times(1.0 / e, x)
  {
    var c := 1.0 / e;
    assert c * e == 1.0;
    var y := c * x;
    assert y * e == x * (c * e);
    QuotientIs(x, e, y);
  }

  lemma {:induction false} PerSecondIsScaled(deltas: seq<Bucket>, elapsed: real)
    requires elapsed > 0.0
    ensures PerSecond(deltas, elapsed) == Scaled(deltas, 1.0 / elapsed)
    decreases |deltas|
  {
    if deltas != [] {
      TimesInverse(deltas[0].count, elapsed);
      PerSecondIsScaled(deltas[1..], elapsed);
    }
  }

  lemma {:induction false} SortedIsStable(bs: seq<Bucket>)
    requires DistinctBounds(bs)
    ensures Sorted(Sorted(bs)) == Sorted(bs)
    decreases |bs|
  {
    SortedFacts(bs);
    SortingAscending(Sorted(bs));
  }

  lemma {:induction false} SortingAscending(bs: seq<Bucket>)
    requires Ascending(bs)
    ensures Sorted(bs) == bs
    decreases |bs|
  {
    if bs != [] {
      SortingAscending(bs[1..]);
      if |bs| > 1 { assert Below(bs[0].bound, bs[1].bound); }
    }
  }

  lemma {:induction false} SameBounds(prev: seq<Bucket>, current: seq<Bucket>, elapsed: real)
    ensures |Deltas(prev, current)| == |current| && |PerSecond(current, elapsed)| == |current|
    ensures forall i | 0 <= i < |current| ::
              && Deltas(prev, current)[i].bound == current[i].bound
              && PerSecond(current, elapsed)[i].bound == current[i].bound
    decreases |current|
  {
    if current != [] { SameBounds(prev, current[1..], elapsed); }
  }

  /** The quantile of a histogram's rates is the quantile of its increments, however long the interval. */
  lemma QuantileOfRates(prev: seq<Bucket>, current: seq<Bucket>, elapsed: real, q: real, scale: real)
    requires prev != [] && elapsed > 0.0 && DistinctBounds(current)
    ensures Quantile(HistogramRates(prev, current, elapsed), q, scale) == Quantile(Deltas(prev, current), q, scale)
  {
    var deltas := Deltas(prev, current);
    var rates := PerSecond(deltas, elapsed);
    SameBounds(prev, current, elapsed);
    SameBounds(prev, deltas, elapsed);
    hide Sorted, QuantileOfSorted, PerSecond, Deltas, Scaled;
    assert DistinctBounds(rates);
    SortedIsStable(rates);
    SortedLength(rates);
    PerSecondIsScaled(deltas, elapsed);
    var c := 1.0 / elapsed;
    assert c * elapsed == 1.0;
    NonNegativeQuotient(1.0, elapsed);
    QuantileOfScaledCounts(deltas, q, scale, c);
    hide DistinctBounds;
    assert Quantile(Sorted(rates), q, scale) == Quantile(rates, q, scale);
  }

  lemma {:induction false} SortedLength(bs: seq<Bucket>)
    ensures |Sorted(bs)| == |bs|
    decreases |bs|
  {
    if bs != [] {
      SortedLength(bs[1..]);
      InsertLength(bs[0], Sorted(bs[1..]));
    }
  }

  lemma {:induction false} InsertLength(b: Bucket, bs: seq<Bucket>)
    ensures |Insert(b, bs)| == |bs| + 1
    decreases |bs|
  {
    if bs != [] { InsertLength(b, bs[1..]); }
  }

  // ----- One bucket over any sequence of scrapes

  /** What one scrape says of a bucket: its histogram is missing or empty, only the bucket is missing, or a count. */
  datatype Sight = NoHistogram | NoBucket | Count(value: real)

  datatype Shot = Shot(sight: Sight, now: real)

  predicate HasBound(bs: seq<Bucket>, bound: Bound) {
    bs != [] && (bs[0].bound == bound || HasBound(bs[1..], bound))
  }

  function SightIn(bs: seq<Bucket>, bound: Bound): Sight {
    if bs == [] then NoHistogram else if HasBound(bs, bound) then Count(CountAt(bs, bound)) else NoBucket
  }

  function BucketRate(before: real, after: real, elapsed: real): real {
    if elapsed > 0.0 then MaxReal(0.0, after - before) / elapsed else 0.0
  }

  /** The rate between two sights of a bucket; one that was missing from its histogram counts from 0. */
  function SightRate(before: Sight, after: Sight, elapsed: real): real {
    if !after.Count? || before.NoHistogram? then 0.0
    else BucketRate(if before.Count? then before.value else 0.0, after.value, elapsed)
  }

  /** The last count seen. */
  function Known(shots: seq<Shot>): Option<real> {
    if shots == [] then None
    else
      var n := |shots| - 1;
      if shots[n].sight.Count? then Some(shots[n].sight.value) else Known(shots[..n])
  }

  /** The first count seen. */
  function First(shots: seq<Shot>): Option<real> {
    if shots == [] then None
    else
      var n := |shots| - 1;
      var first := First(shots[..n]);
      if first.None? && shots[n].sight.Count? then Some(shots[n].sight.value) else first
  }

  function Elapse(before: seq<Shot>, s: Shot): real {
    if before == [] then 0.0 else s.now - before[|before| - 1].now
  }

  function LastSight(before: seq<Shot>): Sight {
    if before == [] then NoHistogram else before[|before| - 1].sight
  }

  /** What the rate at a scrape accounts for. */
  function StepCounted(before: seq<Shot>, s: Shot): real {
    SightRate(LastSight(before), s.sight, Elapse(before, s)) * Elapse(before, s)
  }

  /** By how much the bucket grew, or fell, since it was last seen. */
  function StepGrowth(before: seq<Shot>, s: Shot): real {
    if s.sight.Count? && Known(before).Some? then MaxReal(0.0, s.sight.value - Known(before).value) else 0.0
  }

  function StepDrop(before: seq<Shot>, s: Shot): real {
    if s.sight.Count? && Known(before).Some? then MaxReal(0.0, Known(before).value - s.sight.value) else 0.0
  }

  /** Growth is lost at a scrape that is not later than the last one, and after one without the histogram. */
  function StepLost(before: seq<Shot>, s: Shot): real {
    if Elapse(before, s) <= 0.0 || LastSight(before).NoHistogram? then StepGrowth(before, s) else 0.0
  }

  /** After a scrape that lacks the bucket only, the whole count is counted instead of its growth. */
  function StepExtra(before: seq<Shot>, s: Shot): real {
    if Elapse(before, s) > 0.0 && LastSight(before).NoBucket? && s.sight.Count?
    then MaxReal(0.0, s.sight.value) - StepGrowth(before, s) else 0.0
  }

  function Sum(f: (seq<Shot>, Shot) -> real, shots: seq<Shot>): real {
    if shots == [] then 0.0
    else
      var n := |shots| - 1;
      Sum(f, shots[..n]) + f(shots[..n], shots[n])
  }

  lemma CountedBack(before: real, after: real, elapsed: real)
    requires elapsed > 0.0
    ensures BucketRate(before, after, elapsed) * elapsed == MaxReal(0.0, after - before)
    ensures BucketRate(before, after, elapsed) >= 0.0
  {
    var d := MaxReal(0.0, after - before);
    NonNegativeQuotient(d, elapsed);
    assert d / elapsed * elapsed == d;
  }

  /** What one scrape accounts for is the growth since the bucket was last seen, less what is lost, plus the extra. */
  lemma StepBalance(before: seq<Shot>, s: Shot)
    ensures StepCounted(before, s) == StepGrowth(before, s) - StepLost(before, s) + StepExtra(before, s)
  {
    var elapsed, last := Elapse(before, s), LastSight(before);
    if elapsed > 0.0 && s.sight.Count? && !last.NoHistogram? {
      CountedBack(if last.Count? then last.value else 0.0, s.sight.value, elapsed);
      hide BucketRate;
    } else {
      assert SightRate(last, s.sight, elapsed) == 0.0;
    }
  }

  /**
   * Over any scrapes, the rates of a bucket account for its growth from the first to the last count seen and for the
   * drops at resets, less what was lost, plus what was counted in excess.
   */
  lemma {:induction false} BucketConserves(shots: seq<Shot>)
    ensures First(shots).Some? <==> Known(shots).Some?
    ensures Known(shots).Some? ==>
              Sum(StepCounted, shots) == Known(shots).value - First(shots).value + Sum(StepDrop, shots)
                                         - Sum(StepLost, shots) + Sum(StepExtra, shots)
    ensures Known(shots).None? ==> Sum(StepCounted, shots) == 0.0 == Sum(StepDrop, shots)
    ensures Known(shots).None? ==> Sum(StepLost, shots) == 0.0 == Sum(StepExtra, shots)
    decreases |shots|
  {
    if shots != [] {
      var n := |shots| - 1;
      BucketConserves(shots[..n]);
      StepBalance(shots[..n], shots[n]);
      hide SightRate, BucketRate;
    }
  }

  /** A scrape that brings growth, but is not later than the last one or comes after one without the histogram. */
  predicate LosesAt(shots: seq<Shot>, i: nat)
    requires i < |shots|
  {
    var s, known := shots[i], Known(shots[..i]);
    && s.sight.Count? && known.Some? && s.sight.value > known.value
    && (s.now <= shots[i - 1].now || shots[i - 1].sight.NoHistogram?)
  }

  /** A later scrape that shows the bucket again, or for the first time, in a histogram that just lacked it. */
  predicate ExceedsAt(shots: seq<Shot>, i: nat)
    requires i < |shots|
  {
    var s, known := shots[i], Known(shots[..i]);
    && i > 0 && s.now > shots[i - 1].now && shots[i - 1].sight.NoBucket?
    && s.sight.Count? && s.sight.value > 0.0 && (known.Some? ==> known.value > 0.0)
  }

  lemma {:induction false} SameBefore(shots: seq<Shot>, n: nat, i: nat)
    requires i < n <= |shots|
    ensures LosesAt(shots[..n], i) <==> LosesAt(shots, i)
    ensures ExceedsAt(shots[..n], i) <==> ExceedsAt(shots, i)
  {
    assert shots[..n][..i] == shots[..i];
    hide Known;
  }

  /** Nothing is lost exactly when no scrape brings growth that the code does not count. */
  lemma {:induction false} LostExactly(shots: seq<Shot>)
    ensures Sum(StepLost, shots) >= 0.0
    ensures Sum(StepLost, shots) == 0.0 <==> forall i: nat | i < |shots| :: !LosesAt(shots, i)
    decreases |shots|
  {
    if shots != [] {
      var n := |shots| - 1;
      LostExactly(shots[..n]);
      forall i: nat | i < n ensures LosesAt(shots[..n], i) <==> LosesAt(shots, i) { SameBefore(shots, n, i); }
      assert StepLost(shots[..n], shots[n]) > 0.0 <==> LosesAt(shots, n);
      hide LosesAt, StepLost;
    }
  }

  predicate NonNegative(shots: seq<Shot>) {
    forall i | 0 <= i < |shots| :: shots[i].sight.Count? ==> shots[i].sight.value >= 0.0
  }

  lemma {:induction false} KnownIsNonNegative(shots: seq<Shot>)
    requires NonNegative(shots)
    ensures Known(shots).Some? ==> Known(shots).value >= 0.0
    decreases |shots|
  {
    if shots != [] { KnownIsNonNegative(shots[..|shots| - 1]); }
  }

  /** Nothing is counted in excess exactly when no bucket with a count shows up where it was just missing. */
  lemma {:induction false} ExtraExactly(shots: seq<Shot>)
    requires NonNegative(shots)
    ensures Sum(StepExtra, shots) >= 0.0
    ensures Sum(StepExtra, shots) == 0.0 <==> forall i: nat | i < |shots| :: !ExceedsAt(shots, i)
    decreases |shots|
  {
    if shots != [] {
      var n := |shots| - 1;
      ExtraExactly(shots[..n]);
      forall i: nat | i < n ensures ExceedsAt(shots[..n], i) <==> ExceedsAt(shots, i) { SameBefore(shots, n, i); }
      KnownIsNonNegative(shots[..n]);
      hide Known;
      assert StepExtra(shots[..n], shots[n]) >= 0.0;
      assert StepExtra(shots[..n], shots[n]) > 0.0 <==> ExceedsAt(shots, n);
      hide ExceedsAt, StepExtra;
    }
  }

  /** Every scrape accounts for exactly the growth it shows if and only if none loses any and none exceeds it. */
  lemma {:induction false} BucketExactly(shots: seq<Shot>)
    requires NonNegative(shots)
    ensures (forall i: nat | i < |shots| :: StepCounted(shots[..i], shots[i]) == StepGrowth(shots[..i], shots[i])) <==>
            (forall i: nat | i < |shots| :: !LosesAt(shots, i) && !ExceedsAt(shots, i))
  {
    forall i: nat | i < |shots|
      ensures StepCounted(shots[..i], shots[i]) == StepGrowth(shots[..i], shots[i]) <==>
              !LosesAt(shots, i) && !ExceedsAt(shots, i)
    {
      StepBalance(shots[..i], shots[i]);
      KnownIsNonNegative(shots[..i]);
      hide Known, StepCounted;
    }
  }

  /** Without a stale scrape: one that lacks the histogram loses growth, a bucket that shows up again counts anew. */
  lemma GapsMiscount()
    ensures var gap := [Shot(Count(5.0), 1.0), Shot(NoHistogram, 2.0), Shot(Count(10.0), 3.0)];
            Sum(StepCounted, gap) == 0.0 && Sum(StepLost, gap) == 5.0
    ensures var late := [Shot(Count(7.0), 1.0), Shot(NoBucket, 2.0), Shot(Count(7.0), 3.0)];
            Sum(StepCounted, late) == 7.0 == Sum(StepExtra, late)
  {
    var gap := [Shot(Count(5.0), 1.0), Shot(NoHistogram, 2.0), Shot(Count(10.0), 3.0)];
    var late := [Shot(Count(7.0), 1.0), Shot(NoBucket, 2.0), Shot(Count(7.0), 3.0)];
    ThreeShots(StepCounted, gap[0], gap[1], gap[2]);
    ThreeShots(StepLost, gap[0], gap[1], gap[2]);
    ThreeShots(StepCounted, late[0], late[1], late[2]);
    ThreeShots(StepExtra, late[0], late[1], late[2]);
    hide Sum;
    assert Known([gap[0], gap[1]]) == Some(5.0) && Known([late[0], late[1]]) == Some(7.0) by {
      assert [gap[0], gap[1]][..1] == [gap[0]] && [late[0], late[1]][..1] == [late[0]];
    }
  }

  lemma ThreeShots(f: (seq<Shot>, Shot) -> real, a: Shot, b: Shot, c: Shot)
    ensures Sum(f, [a, b, c]) == f([], a) + f([a], b) + f([a, b], c)
  {
    assert [a, b, c][..2] == [a, b] && [a, b][..1] == [a] && [a][..0] == [];
    assert Sum(f, [a]) == f([], a) && Sum(f, [a, b]) == Sum(f, [a]) + f([a], b);
  }

  lemma {:induction false} InsertCount(b: Bucket, bs: seq<Bucket>, bound: Bound)
    requires forall x | x in bs :: x.bound != b.bound
    ensures CountAt(Insert(b, bs), bound) == if b.bound == bound then b.count else CountAt(bs, bound)
    decreases |bs|
  {
    if bs != [] {
      assert forall x | x in bs[1..] :: x in bs;
      InsertCount(b, bs[1..], bound);
      assert ([b] + bs)[1..] == bs;
      assert ([bs[0]] + Insert(b, bs[1..]))[1..] == Insert(b, bs[1..]);
      assert bs[0] in bs;
    }
  }

  lemma {:induction false} SortedCount(bs: seq<Bucket>, bound: Bound)
    requires DistinctBounds(bs)
    ensures CountAt(Sorted(bs), bound) == CountAt(bs, bound)
    decreases |bs|
  {
    if bs != [] {
      assert DistinctBounds(bs[1..]);
      SortedCount(bs[1..], bound);
      SortedFacts(bs[1..]);
      forall x | x in Sorted(bs[1..]) ensures x.bound != bs[0].bound {
        assert x in multiset(Sorted(bs[1..]));
        assert x in bs[1..];
      }
      InsertCount(bs[0], Sorted(bs[1..]), bound);
    }
  }

  lemma {:induction false} RateCount(prev: seq<Bucket>, current: seq<Bucket>, elapsed: real, bound: Bound)
    ensures CountAt(PerSecond(Deltas(prev, current), elapsed), bound) ==
            if HasBound(current, bound) then BucketRate(CountAt(prev, bound), CountAt(current, bound), elapsed) else 0.0
    ensures CountAt(Zeros(current), bound) == 0.0
    ensures !HasBound(prev, bound) ==> CountAt(prev, bound) == 0.0
    decreases |current|, |prev|
  {
    if prev != [] { RateCount(prev[1..], [], elapsed, bound); }
    if current != [] { RateCount(prev, current[1..], elapsed, bound); }
  }

  /** The rate the code computes for a bucket follows from the two sights of that bucket alone. */
  lemma {:induction false} RateOfBucket(prev: seq<Bucket>, current: seq<Bucket>, elapsed: real, bound: Bound)
    requires DistinctBounds(current)
    ensures CountAt(HistogramRates(prev, current, elapsed), bound) ==
            SightRate(SightIn(prev, bound), SightIn(current, bound), elapsed)
  {
    var deltas := Deltas(prev, current);
    var rates := PerSecond(deltas, elapsed);
    RateCount(prev, current, elapsed, bound);
    SameBounds(prev, current, elapsed);
    SameBounds(prev, deltas, elapsed);
    assert DistinctBounds(rates);
    SortedCount(rates, bound);
    hide BucketRate, Zeros, PerSecond, Deltas, Sorted, DistinctBounds;
  }

  // ----- Runs of the histogram rates

  /** One call for a pod: the scrape, its time, and the rates returned. */
  datatype Call = Call(current: map<string, seq<Bucket>>, now: real, rates: map<string, seq<Bucket>>)

  /** `m.get(h, {})` */
  function BucketsOf(m: map<string, seq<Bucket>>, h: string): seq<Bucket> {
    if h in m then m[h] else []
  }

  function LastScrape(calls: seq<Call>): map<string, seq<Bucket>> {
    if calls == [] then map[] else calls[|calls| - 1].current
  }

  function Since(calls: seq<Call>, now: real): real {
    if calls == [] then 0.0 else now - calls[|calls| - 1].now
  }

  ghost predicate Answers(before: seq<Call>, c: Call) {
    && c.rates.Keys == c.current.Keys
    && forall h | h in c.current ::
         && DistinctBounds(c.current[h])
         && c.rates[h] == HistogramRates(BucketsOf(LastScrape(before), h), c.current[h], Since(before, c.now))
  }

  /** Every call is answered against the one before it. */
  ghost predicate HistogramRun(calls: seq<Call>) {
    calls == [] || (HistogramRun(calls[..|calls| - 1]) && Answers(calls[..|calls| - 1], calls[|calls| - 1]))
  }

  /** What a run of calls shows of one bucket. */
  function Shots(calls: seq<Call>, h: string, bound: Bound): (r: seq<Shot>)
    ensures |r| == |calls|
  {
    if calls == [] then []
    else
      var n := |calls| - 1;
      Shots(calls[..n], h, bound) + [Shot(SightIn(BucketsOf(calls[n].current, h), bound), calls[n].now)]
  }

  /** The returned rate of one bucket, times the time it speaks of. */
  function RatedAt(before: seq<Call>, c: Call, h: string, bound: Bound): real {
    CountAt(BucketsOf(c.rates, h), bound) * Since(before, c.now)
  }

  /** What all returned rates of one bucket account for. */
  function Rated(calls: seq<Call>, h: string, bound: Bound): real {
    if calls == [] then 0.0
    else
      var n := |calls| - 1;
      Rated(calls[..n], h, bound) + RatedAt(calls[..n], calls[n], h, bound)
  }

  lemma RatedStep(before: seq<Call>, c: Call, h: string, bound: Bound)
    requires Answers(before, c)
    ensures CountAt(BucketsOf(c.rates, h), bound) ==
            SightRate(SightIn(BucketsOf(LastScrape(before), h), bound), SightIn(BucketsOf(c.current, h), bound),
                      Since(before, c.now))
  {
    if h in c.current {
      RateOfBucket(BucketsOf(LastScrape(before), h), c.current[h], Since(before, c.now), bound);
    }
    hide HistogramRates, DistinctBounds;
  }

  lemma {:induction false} LastShot(before: seq<Call>, h: string, bound: Bound, s: Shot)
    ensures LastSight(Shots(before, h, bound)) == SightIn(BucketsOf(LastScrape(before), h), bound)
    ensures Elapse(Shots(before, h, bound), s) == Since(before, s.now)
  {
    hide HasBound, CountAt;
  }

  lemma StepRated(before: seq<Call>, c: Call, h: string, bound: Bound)
    requires Answers(before, c)
    ensures RatedAt(before, c, h, bound) ==
            StepCounted(Shots(before, h, bound), Shot(SightIn(BucketsOf(c.current, h), bound), c.now))
  {
    RatedStep(before, c, h, bound);
    LastShot(before, h, bound, Shot(SightIn(BucketsOf(c.current, h), bound), c.now));
    hide Answers, CountAt, BucketsOf, Since, Shots, SightIn, SightRate, LastScrape, LastSight, Elapse;
  }

  lemma CountedOneMore(shots: seq<Shot>, s: Shot)
    ensures Sum(StepCounted, shots + [s]) == Sum(StepCounted, shots) + StepCounted(shots, s)
  {
    assert (shots + [s])[..|shots|] == shots;
    hide StepCounted;
  }

  /** The last call of a run. */
  lemma RunEnds(calls: seq<Call>, h: string, bound: Bound)
    requires HistogramRun(calls) && calls != []
    ensures var before, c := calls[..|calls| - 1], calls[|calls| - 1];
            && HistogramRun(before) && Answers(before, c)
            && Rated(calls, h, bound) == Rated(before, h, bound) + RatedAt(before, c, h, bound)
            && Shots(calls, h, bound) ==
               Shots(before, h, bound) + [Shot(SightIn(BucketsOf(c.current, h), bound), c.now)]
  {
    hide Answers, RatedAt, SightIn, BucketsOf;
  }

  lemma {:induction false} RatedIsCounted(calls: seq<Call>, h: string, bound: Bound)
    requires HistogramRun(calls)
    ensures Rated(calls, h, bound) == Sum(StepCounted, Shots(calls, h, bound))
    decreases |calls|
  {
    if calls != [] {
      hide *;
      var before, c := calls[..|calls| - 1], calls[|calls| - 1];
      RunEnds(calls, h, bound);
      RatedIsCounted(before, h, bound);
      StepRated(before, c, h, bound);
      CountedOneMore(Shots(before, h, bound), Shot(SightIn(BucketsOf(c.current, h), bound), c.now));
    }
  }

  /** The rates that a run of calls returned for a bucket account for what the scrapes show of it. */
  lemma {:induction false} HistogramRunConserves(calls: seq<Call>, h: string, bound: Bound)
    requires HistogramRun(calls)
    ensures var shots := Shots(calls, h, bound);
            && (Known(shots).Some? <==> First(shots).Some?)
            && (Known(shots).Some? ==>
                  Rated(calls, h, bound) == Known(shots).value - First(shots).value + Sum(StepDrop, shots)
                                            - Sum(StepLost, shots) + Sum(StepExtra, shots))
            && (Known(shots).None? ==> Rated(calls, h, bound) == 0.0)
  {
    RatedIsCounted(calls, h, bound);
    BucketConserves(Shots(calls, h, bound));
    hide Shots, Sum, Known, First, Rated;
  }

  // ----- The cache of one target

  /** The dictionary key of a counter's time stamp. */
  function TsKey(name: string): string {
    name + "_ts"
  }

  predicate EndsInTs(name: string) {
    |name| >= 3 && name[|name| - 3..] == "_ts"
  }

  /** Values and time stamps share one dictionary. */
  predicate Paired(prev: map<string, real>) {
    forall n | n in prev && !EndsInTs(n) :: TsKey(n) in prev
  }

  function CounterOf(prev: map<string, real>, name: string): Counter {
    if name in prev && TsKey(name) in prev then Seen(prev[name], prev[TsKey(name)]) else Unseen
  }

  method RatesOfAll(prev: map<string, seq<Bucket>>, current: map<string, seq<Bucket>>, elapsed: real)
    returns (result: map<string, seq<Bucket>>)
    ensures result.Keys == current.Keys
    ensures forall h | h in current :: result[h] == HistogramRates(BucketsOf(prev, h), current[h], elapsed)
  {
    hide Zeros, Sorted, PerSecond, Deltas;
    result := map[];
    var todo := current.Keys;
    while todo != {}
      invariant todo <= current.Keys && result.Keys == current.Keys - todo
      invariant forall h | h in result :: result[h] == HistogramRates(BucketsOf(prev, h), current[h], elapsed)
      decreases todo
    {
      var h :| h in todo;
      todo := todo - {h};
      var prevHist := BucketsOf(prev, h);
      if prevHist == [] {
        result := result[h := Zeros(current[h])];
      } else {
        result := result[h := Sorted(PerSecond(Deltas(prevHist, current[h]), elapsed))];
      }
      assert result[h] == HistogramRates(prevHist, current[h], elapsed);
    }
  }

  /** The snapshots and their times are those of the last calls. */
  ghost predicate Logged(
    snapshots: map<string, map<string, seq<Bucket>>>, times: map<string, real>, calls: map<string, seq<Call>>)
  {
    && snapshots.Keys == times.Keys == calls.Keys
    && forall pod | pod in calls ::
         && HistogramRun(calls[pod]) && calls[pod] != []
         && snapshots[pod] == LastScrape(calls[pod]) && times[pod] == calls[pod][|calls[pod]| - 1].now
  }

  lemma LoggedBefore(
    snapshots: map<string, map<string, seq<Bucket>>>, times: map<string, real>, calls: map<string, seq<Call>>,
    pod: string, now: real, current: map<string, seq<Bucket>>)
    requires Logged(snapshots, times, calls)
    ensures var before := if pod in calls then calls[pod] else [];
            && (pod in snapshots <==> pod in times)
            && (pod in snapshots ==> snapshots[pod] == LastScrape(before) && now - times[pod] == Since(before, now))
            && (pod !in snapshots ==> LastScrape(before) == map[] && Since(before, now) == 0.0)
    ensures snapshots[pod := map[]][pod := current] == snapshots[pod := current]
    ensures times[pod := now][pod := now] == times[pod := now]
  {
    hide HistogramRun;
  }

  lemma LoggedOneMore(
    snapshots: map<string, map<string, seq<Bucket>>>, times: map<string, real>, calls: map<string, seq<Call>>,
    pod: string, before: seq<Call>, c: Call)
    requires Logged(snapshots, times, calls) && before == if pod in calls then calls[pod] else []
    requires Answers(before, c)
    ensures Logged(snapshots[pod := c.current], times[pod := c.now], calls[pod := before + [c]])
  {
    RunOneMore(before, c);
    hide Answers, HistogramRun;
  }

  class TargetCache {
    var prevCounters: map<string, map<string, real>>
    var prevHistBuckets: map<string, map<string, seq<Bucket>>>
    var prevHistTimestamps: map<string, real>
    /** All calls for histogram rates so far, pod by pod. */
    ghost var calls: map<string, seq<Call>>

    constructor ()
      ensures Valid() && prevCounters == map[] && prevHistBuckets == map[] && prevHistTimestamps == map[]
      ensures calls == map[]
    {
      prevCounters, prevHistBuckets, prevHistTimestamps, calls := map[], map[], map[], map[];
    }

    ghost predicate Valid()
      reads this
    {
      && (forall pod | pod in prevCounters :: Paired(prevCounters[pod]))
      && Logged(prevHistBuckets, prevHistTimestamps, calls)
    }

    ghost function CallsOf(pod: string): seq<Call>
      reads this`calls
    {
      if pod in calls then calls[pod] else []
    }

    function Previous(pod: string): map<string, real>
      reads this`prevCounters
    {
      if pod in prevCounters then prevCounters[pod] else map[]
    }

    /** One scrape of one pod: every counter in it takes one step, everything else stays. */
    method ComputeRates(pod: string, raw: map<string, real>, now: real) returns (rates: map<string, real>)
      requires Valid() && forall n | n in raw :: !EndsInTs(n)
      modifies this`prevCounters
      ensures Valid() && rates.Keys == raw.Keys
      ensures forall n | n in raw ::
                && rates[n] == Rate(CounterOf(old(Previous(pod)), n), Scrape(raw[n], now))
                && CounterOf(Previous(pod), n) == Next(CounterOf(old(Previous(pod)), n), Scrape(raw[n], now))
      ensures forall n | n !in raw && !EndsInTs(n) :: CounterOf(Previous(pod), n) == CounterOf(old(Previous(pod)), n)
      ensures forall p | p != pod :: (p in prevCounters <==> p in old(prevCounters)) &&
                (p in prevCounters ==> prevCounters[p] == old(prevCounters)[p])
    {
      hide EndsInTs, TsKey, Logged;
      ghost var before := Previous(pod);
      var prev, todo := Previous(pod), raw.Keys;
      rates := map[];
      while todo != {}
        invariant prevCounters == old(prevCounters)
        invariant todo <= raw.Keys && rates.Keys == raw.Keys - todo && Paired(prev)
        invariant forall n | n in rates ::
                    && rates[n] == Rate(CounterOf(before, n), Scrape(raw[n], now))
                    && CounterOf(prev, n) == Next(CounterOf(before, n), Scrape(raw[n], now))
        invariant forall n | n !in rates && !EndsInTs(n) :: CounterOf(prev, n) == CounterOf(before, n)
        invariant forall n | n !in rates && !EndsInTs(n) :: n in prev <==> n in before
        decreases todo
      {
        var name :| name in todo;
        todo := todo - {name};
        ghost var earlier := prev;
        if name !in prev {
          prev := prev[name := raw[name]][TsKey(name) := now];
          rates := rates[name := 0.0];
        } else {
          var elapsed := now - prev[TsKey(name)];
          if elapsed <= 0.0 {
            rates := rates[name := 0.0];
          } else {
            var delta := raw[name] - prev[name];
            prev := prev[name := raw[name]][TsKey(name) := now];
            rates := rates[name := if delta < 0.0 then 0.0 else delta / elapsed];
          }
        }
        OthersUntouched(earlier, prev, name, raw[name], now);
      }
      prevCounters := prevCounters[pod := prev];
    }

    /** One scrape of a pod's histograms: one more call, answered against the last one, whatever its time. */
    method ComputeHistogramRates(pod: string, current: map<string, seq<Bucket>>, now: real)
      returns (result: map<string, seq<Bucket>>)
      requires Valid() && forall h | h in current :: DistinctBounds(current[h])
      modifies this`prevHistBuckets, this`prevHistTimestamps, this`calls
      ensures Valid() && calls == old(calls)[pod := old(CallsOf(pod)) + [Call(current, now, result)]]
    {
      hide Answers, Logged, Paired, LastScrape, Since;
      ghost var before, buckets, times := CallsOf(pod), prevHistBuckets, prevHistTimestamps;
      LoggedBefore(buckets, times, calls, pod, now, current);
      if pod !in prevHistBuckets {
        prevHistBuckets := prevHistBuckets[pod := map[]];
        prevHistTimestamps := prevHistTimestamps[pod := now];
      }
      result := RatesOfAll(prevHistBuckets[pod], current, now - prevHistTimestamps[pod]);
      AnsweredNow(before, Call(current, now, result), prevHistBuckets[pod], now - prevHistTimestamps[pod]);
      prevHistBuckets := prevHistBuckets[pod := current];
      prevHistTimestamps := prevHistTimestamps[pod := now];
      LoggedOneMore(buckets, times, calls, pod, before, Call(current, now, result));
      calls := calls[pod := before + [Call(current, now, result)]];
    }
  }

  lemma AnsweredNow(before: seq<Call>, c: Call, prev: map<string, seq<Bucket>>, elapsed: real)
    requires prev == LastScrape(before) && elapsed == Since(before, c.now) && c.rates.Keys == c.current.Keys
    requires forall h | h in c.current ::
               DistinctBounds(c.current[h]) && c.rates[h] == HistogramRates(BucketsOf(prev, h), c.current[h], elapsed)
    ensures Answers(before, c)
  {
  }

  lemma RunOneMore(calls: seq<Call>, c: Call)
    requires HistogramRun(calls) && Answers(calls, c)
    ensures HistogramRun(calls + [c]) && LastScrape(calls + [c]) == c.current
  {
    assert (calls + [c])[..|calls|] == calls;
    hide Answers;
  }

  lemma TsKeyFacts(n: string, m: string)
    ensures EndsInTs(TsKey(n)) && (TsKey(n) == TsKey(m) ==> n == m)
  {
    assert TsKey(n)[|n|..] == "_ts" && TsKey(n)[..|n|] == n && TsKey(m)[..|m|] == m;
  }

  /** Writing a counter and its time stamp leaves all other counters alone. */
  lemma OthersUntouched(prev: map<string, real>, next: map<string, real>, name: string, v: real, t: real)
    requires !EndsInTs(name)
    requires next == prev || next == prev[name := v][TsKey(name) := t]
    ensures forall n | n != name && !EndsInTs(n) ::
              CounterOf(next, n) == CounterOf(prev, n) && (n in next <==> n in prev)
    ensures Paired(prev) ==> Paired(next)
    ensures next != prev ==> CounterOf(next, name) == Seen(v, t)
  {
    TsKeyFacts(name, name);
    forall n | n != name && !EndsInTs(n)
      ensures CounterOf(next, n) == CounterOf(prev, n) && (n in next <==> n in prev)
      ensures TsKey(n) in prev <==> TsKey(n) in next
    {
      OtherUntouched(prev, next, name, v, t, n);
    }
    hide EndsInTs, TsKey;
  }

  lemma OtherUntouched(
    prev: map<string, real>, next: map<string, real>, name: string, v: real, t: real, n: string)
    requires !EndsInTs(name) && n != name && !EndsInTs(n)
    requires next == prev || next == prev[name := v][TsKey(name) := t]
    ensures CounterOf(next, n) == CounterOf(prev, n) && (n in next <==> n in prev)
    ensures TsKey(n) in prev <==> TsKey(n) in next
  {
    TsKeyFacts(n, name);
    TsKeyFacts(name, n);
    hide EndsInTs, TsKey;
  }
}
