/** Histogram quantiles and counter rates of the metrics collector, over the reals. */
module Metrics {

  /** An upper bucket bound; the top bucket has none. */
  datatype Bound = Fin(le: real) | Inf

  datatype Bucket = Bucket(bound: Bound, count: real)

  predicate Below(a: Bound, b: Bound) {
    a.Fin? && (b.Inf? || a.le < b.le)
  }

  predicate AtMost(a: Bound, b: Bound) {
    b.Inf? || (a.Fin? && a.le <= b.le)
  }

  // ----- Sorting by bound

  function Insert(b: Bucket, bs: seq<Bucket>): seq<Bucket> {
    if bs == [] || AtMost(b.bound, bs[0].bound) then [b] + bs else [bs[0]] + Insert(b, bs[1..])
  }

  /** Python's stable sort by bound. */
  function Sorted(bs: seq<Bucket>): seq<Bucket> {
    if bs == [] then [] else Insert(bs[0], Sorted(bs[1..]))
  }

  predicate Ascending(bs: seq<Bucket>) {
    forall i, j | 0 <= i < j < |bs| :: Below(bs[i].bound, bs[j].bound)
  }

  predicate DistinctBounds(bs: seq<Bucket>) {
    forall i, j | 0 <= i < j < |bs| :: bs[i].bound != bs[j].bound
  }

  lemma {:induction false} InsertKeeps(b: Bucket, bs: seq<Bucket>)
    ensures multiset(Insert(b, bs)) == multiset{b} + multiset(bs)
    decreases |bs|
  {
    if bs != [] && !AtMost(b.bound, bs[0].bound) {
      InsertKeeps(b, bs[1..]);
      assert bs == [bs[0]] + bs[1..];
    }
  }

  lemma {:induction false} InsertAscending(b: Bucket, bs: seq<Bucket>)
    requires Ascending(bs) && forall x | x in bs :: x.bound != b.bound
    ensures Ascending(Insert(b, bs))
    decreases |bs|
  {
    if bs == [] || AtMost(b.bound, bs[0].bound) {
      if bs != [] { assert bs[0] in bs; }
    } else {
      var rest := Insert(b, bs[1..]);
      InsertAscending(b, bs[1..]);
      InsertKeeps(b, bs[1..]);
      assert bs[0] in bs;
      forall j | 0 <= j < |rest| ensures Below(bs[0].bound, rest[j].bound) {
        assert rest[j] in multiset(rest);
        if rest[j] != b {
          var i :| 0 <= i < |bs[1..]| && bs[1..][i] == rest[j];
          assert Below(bs[0].bound, bs[i + 1].bound);
        }
      }
    }
  }

  /** Distinct bounds in any order come out strictly ascending, none lost. */
  lemma {:induction false} SortedFacts(bs: seq<Bucket>)
    requires DistinctBounds(bs)
    ensures Ascending(Sorted(bs)) && multiset(Sorted(bs)) == multiset(bs)
    decreases |bs|
  {
    if bs != [] {
      SortedFacts(bs[1..]);
      forall x | x in Sorted(bs[1..]) ensures x.bound != bs[0].bound {
        assert x in multiset(bs[1..]);
        var i :| 0 <= i < |bs[1..]| && bs[1..][i] == x;
        assert bs[0].bound != bs[i + 1].bound;
      }
      InsertKeeps(bs[0], Sorted(bs[1..]));
      InsertAscending(bs[0], Sorted(bs[1..]));
      assert bs == [bs[0]] + bs[1..];
    }
  }

  // ----- The quantile

  function MaxReal(a: real, b: real): real { if a >= b then a else b }

  /** The greatest non-negative count up to and including the first unbounded bucket. */
  function TotalFrom(bs: seq<Bucket>, total: real): real {
    if bs == [] then total
    else if bs[0].count < 0.0 then TotalFrom(bs[1..], total)
    else if bs[0].bound.Inf? then MaxReal(total, bs[0].count)
    else TotalFrom(bs[1..], MaxReal(total, bs[0].count))
  }

  function Total(bs: seq<Bucket>): real {
    TotalFrom(bs, 0.0)
  }

  /** Inside a bucket that reaches the rank. */
  function Interpolated(lb: real, lc: real, b: Bucket, rank: real): real {
    if b.count == lc || b.bound.Inf? then lb
    else lb + (b.bound.le - lb) * (rank - lc) / (b.count - lc)
  }

  /** The search over sorted buckets, from lower bound `lb` and lower count `lc`. */
  function Search(bs: seq<Bucket>, rank: real, lb: real, lc: real): real {
    if bs == [] then 0.0
    else if bs[0].count < 0.0 then Search(bs[1..], rank, lb, lc)
    else if bs[0].count >= rank then Interpolated(lb, lc, bs[0], rank)
    else Search(bs[1..], rank, if bs[0].bound.Inf? then lb else bs[0].bound.le, bs[0].count)
  }

  function Rank(q: real, total: real): real {
    q * total
  }

  function QuantileOfSorted(bs: seq<Bucket>, q: real): real {
    if Total(bs) <= 0.0 then 0.0 else Search(bs, Rank(q, Total(bs)), 0.0, 0.0)
  }

  function Quantile(bs: seq<Bucket>, q: real, scale: real): real {
    if bs == [] || q < 0.0 || q > 1.0 then 0.0 else QuantileOfSorted(Sorted(bs), q) * scale
  }

  method TotalCount(sorted: seq<Bucket>) returns (total: real)
    ensures total == Total(sorted)
  {
    total := 0.0;
    for i := 0 to |sorted|
      invariant TotalFrom(sorted[i..], total) == Total(sorted)
    {
      var b := sorted[i];
      assert sorted[i..][1..] == sorted[i + 1..];
      if b.count >= 0.0 {
        total := MaxReal(total, b.count);
        if b.bound.Inf? { return; }
      }
    }
  }

  method SearchBuckets(sorted: seq<Bucket>, rank: real, scale: real) returns (r: real)
    ensures r == Search(sorted, rank, 0.0, 0.0) * scale
  {
    var lowerBound, lowerCount := 0.0, 0.0;
    ghost var found := Search(sorted, rank, 0.0, 0.0);
    for i := 0 to |sorted|
      invariant Search(sorted[i..], rank, lowerBound, lowerCount) == found
    {
      var b := sorted[i];
      assert sorted[i..][1..] == sorted[i + 1..];
      if b.count >= 0.0 {
        if b.count >= rank {
          if b.count == lowerCount || b.bound.Inf? { return lowerBound * scale; }
          var interpolated := lowerBound + (b.bound.le - lowerBound) * (rank - lowerCount) / (b.count - lowerCount);
          assert found == interpolated;
          return interpolated * scale;
        }
        if !b.bound.Inf? { lowerBound := b.bound.le; }
        lowerCount := b.count;
      }
    }
    r := 0.0;
  }

  method ComputeHistogramQuantile(buckets: seq<Bucket>, q: real, scale: real) returns (r: real)
    ensures r == Quantile(buckets, q, scale)
  {
    if buckets == [] || q < 0.0 || q > 1.0 { return 0.0; }
    var sorted := Sorted(buckets);
    var total := TotalCount(sorted);
    hide Sorted, Total, Search, Rank;
    if total <= 0.0 { return 0.0; }
    r := SearchBuckets(sorted, Rank(q, total), scale);
  }

  // ----- Where the search ends

  /** The first bucket whose count reaches the rank; the length of `bs` when none does. */
  function FirstReaching(bs: seq<Bucket>, rank: real): (i: nat)
    ensures i <= |bs| && (i < |bs| ==> bs[i].count >= rank)
    ensures forall j | 0 <= j < i :: bs[j].count < rank
  {
    if bs == [] || bs[0].count >= rank then 0 else 1 + FirstReaching(bs[1..], rank)
  }

  /** The lower bound in force at position `i`: the last finite bound before it. */
  function LowerBound(bs: seq<Bucket>, i: nat, lb: real): real
    requires i <= |bs|
  {
    if i == 0 then lb else if bs[i - 1].bound.Fin? then bs[i - 1].bound.le else LowerBound(bs, i - 1, lb)
  }

  function LowerCount(bs: seq<Bucket>, i: nat, lc: real): real
    requires i <= |bs|
  {
    if i == 0 then lc else bs[i - 1].count
  }

  lemma {:induction false} LowerBoundShift(bs: seq<Bucket>, i: nat, lb: real)
    requires 0 < i <= |bs|
    ensures LowerBound(bs, i, lb) ==
            LowerBound(bs[1..], i - 1, if bs[0].bound.Inf? then lb else bs[0].bound.le)
    decreases i
  {
    if i > 1 { LowerBoundShift(bs, i - 1, lb); }
  }

  /** The search returns inside the first bucket whose count reaches the rank. */
  lemma {:induction false} SearchEndsThere(bs: seq<Bucket>, rank: real, lb: real, lc: real)
    requires forall b | b in bs :: b.count >= 0.0
    requires FirstReaching(bs, rank) < |bs|
    ensures var i := FirstReaching(bs, rank);
            Search(bs, rank, lb, lc) == Interpolated(LowerBound(bs, i, lb), LowerCount(bs, i, lc), bs[i], rank)
    decreases |bs|
  {
    hide Interpolated;
    if bs[0].count < rank {
      SearchEndsThere(bs[1..], rank, if bs[0].bound.Inf? then lb else bs[0].bound.le, bs[0].count);
      LowerBoundShift(bs, FirstReaching(bs, rank), lb);
    }
  }

  lemma {:induction false} TotalIsMaximum(bs: seq<Bucket>, total: real)
    requires Ascending(bs) && forall b | b in bs :: b.count >= 0.0
    ensures TotalFrom(bs, total) >= total && forall b | b in bs :: b.count <= TotalFrom(bs, total)
    ensures TotalFrom(bs, total) == total || exists i | 0 <= i < |bs| :: bs[i].count == TotalFrom(bs, total)
    decreases |bs|
  {
    if bs != [] {
      assert |bs| > 1 ==> Below(bs[0].bound, bs[1].bound);
      if bs[0].bound.Fin? {
        TotalIsMaximum(bs[1..], MaxReal(total, bs[0].count));
        if i :| 0 <= i < |bs[1..]| && bs[1..][i].count == TotalFrom(bs, total) {
          assert bs[i + 1].count == TotalFrom(bs, total);
        }
      }
    }
  }

  lemma RankIsReached(bs: seq<Bucket>, q: real)
    requires Ascending(bs) && (forall b | b in bs :: b.count >= 0.0) && Total(bs) > 0.0 && 0.0 <= q <= 1.0
    ensures FirstReaching(bs, Rank(q, Total(bs))) < |bs| && 0.0 <= Rank(q, Total(bs)) <= Total(bs)
  {
    TotalIsMaximum(bs, 0.0);
    ScaleDown(q, Total(bs));
    var i :| 0 <= i < |bs| && bs[i].count == Total(bs);
    assert bs[i].count >= Rank(q, Total(bs));
  }

  lemma NonNegative(a: real, b: real)
    requires a >= 0.0 && b >= 0.0
    ensures a * b >= 0.0
  {
  }

  lemma RankMonotone(p: real, q: real, x: real)
    requires p <= q && x >= 0.0
    ensures Rank(p, x) <= Rank(q, x)
  {
    NonNegative(q - p, x);
    assert (q - p) * x == q * x - p * x;
  }

  lemma ScaleDown(q: real, x: real)
    requires 0.0 <= q <= 1.0 && x >= 0.0
    ensures 0.0 <= Rank(q, x) <= x
  {
    NonNegative(1.0 - q, x);
    NonNegative(q, x);
    assert (1.0 - q) * x == x - q * x;
  }

  // ----- Bounds of one interpolation

  predicate Histogram(bs: seq<Bucket>) {
    && Ascending(bs) && Total(bs) > 0.0
    && forall b | b in bs :: b.count >= 0.0 && (b.bound.Fin? ==> b.bound.le >= 0.0)
  }

  lemma DivideWithin(a: real, b: real)
    requires 0.0 <= a <= b && b > 0.0
    ensures 0.0 <= a / b <= 1.0
  {
    assert a / b * b == a;
  }

  /**
   * Inside a bucket with `lb` below its bound and `lc` not above the rank, the result lies in the bucket
   * and splits its counts in the proportion of the rank.
   */
  lemma InterpolatedInside(lb: real, lc: real, b: Bucket, rank: real)
    requires AtMost(Fin(lb), b.bound) && lc <= rank <= b.count
    ensures lb <= Interpolated(lb, lc, b, rank) && AtMost(Fin(Interpolated(lb, lc, b, rank)), b.bound)
    ensures b.bound.Fin? ==>
              (Interpolated(lb, lc, b, rank) - lb) * (b.count - lc) ==
              if b.count == lc then 0.0 else (b.bound.le - lb) * (rank - lc)
  {
    if b.bound.Fin? && b.count != lc {
      var w, d, n := b.bound.le - lb, b.count - lc, rank - lc;
      DivideWithin(n, d);
      var f := n / d;
      assert f * d == n;
      assert w * n / d == w * f by {
        assert w * n == w * f * d;
      }
      assert w * f == f * w;
      ScaleDown(f, w);
      assert w * f * d == w * n;
    }
  }

  lemma InterpolatedMonotone(lb: real, lc: real, b: Bucket, r1: real, r2: real)
    requires AtMost(Fin(lb), b.bound) && lc <= r1 <= r2 <= b.count
    ensures Interpolated(lb, lc, b, r1) <= Interpolated(lb, lc, b, r2)
  {
    if b.bound.Fin? && b.count != lc {
      var w, d := b.bound.le - lb, b.count - lc;
      var x, y := w * (r1 - lc), w * (r2 - lc);
      assert x <= y;
      DivideOrdered(x, y, d);
    }
  }

  lemma DivideOrdered(x: real, y: real, d: real)
    requires x <= y && d > 0.0
    ensures x / d <= y / d
  {
    assert x / d * d == x && y / d * d == y;
  }

  // ----- The laws

  lemma {:induction false} LowerBoundFacts(bs: seq<Bucket>, i: nat)
    requires Histogram(bs) && i < |bs|
    ensures LowerBound(bs, i, 0.0) >= 0.0 && AtMost(Fin(LowerBound(bs, i, 0.0)), bs[i].bound)
    ensures forall j | 0 <= j < i && bs[j].bound.Fin? :: bs[j].bound.le <= LowerBound(bs, i, 0.0)
    decreases i
  {
    if i == 0 {
      assert bs[0] in bs;
    } else {
      LowerBoundFacts(bs, i - 1);
      assert Below(bs[i - 1].bound, bs[i].bound) && bs[i - 1] in bs;
      forall j | 0 <= j < i && bs[j].bound.Fin? ensures bs[j].bound.le <= LowerBound(bs, i, 0.0) {
        if j < i - 1 { assert Below(bs[j].bound, bs[i - 1].bound); }
      }
    }
  }

  /** The greatest count of all. */
  predicate IsTotal(bs: seq<Bucket>, total: real) {
    (forall b | b in bs :: b.count <= total) && exists b | b in bs :: b.count == total
  }

  /** `part` is to `whole` as `share` is to `counts`. */
  predicate Proportional(part: real, whole: real, share: real, counts: real) {
    part * counts == whole * share
  }

  /** `x` splits the counts of bucket `i` in the proportion in which it splits its width. */
  predicate Splits(bs: seq<Bucket>, i: nat, x: real, share: real)
    requires i < |bs|
  {
    var lb, lc := LowerBound(bs, i, 0.0), LowerCount(bs, i, 0.0);
    && lc <= share <= bs[i].count && lb <= x && AtMost(Fin(x), bs[i].bound)
    && (bs[i].bound.Inf? || bs[i].count == lc ==> x == lb)
    && (bs[i].bound.Fin? && bs[i].count != lc ==>
          Proportional(x - lb, bs[i].bound.le - lb, share - lc, bs[i].count - lc))
  }

  /** The first bucket whose count is at least `share`, split by `x`. */
  predicate SplitsFirst(bs: seq<Bucket>, i: nat, x: real, share: real) {
    i < |bs| && Splits(bs, i, x, share) && forall j | 0 <= j < i :: bs[j].count < share
  }

  /**
   * The quantile lies in the first bucket whose count is at least the `q`-th share of the greatest count, and splits
   * it as that share splits the counts.
   */
  lemma QuantileInFirstReaching(bs: seq<Bucket>, q: real, total: real) returns (i: nat)
    requires Histogram(bs) && 0.0 <= q <= 1.0 && IsTotal(bs, total)
    ensures SplitsFirst(bs, i, QuantileOfSorted(bs, q), q * total)
  {
    TotalIs(bs, total);
    i := FirstReaching(bs, Rank(q, Total(bs)));
    SplitAtRank(bs, q);
    RankIsShare(q, total);
    hide *;
  }

  lemma RankIsShare(q: real, total: real)
    ensures Rank(q, total) == q * total
  {
  }

  lemma InterpolatedSplits(lb: real, lc: real, b: Bucket, rank: real)
    requires AtMost(Fin(lb), b.bound) && lc <= rank <= b.count
    ensures var x := Interpolated(lb, lc, b, rank);
            && (b.bound.Inf? || b.count == lc ==> x == lb)
            && (b.bound.Fin? && b.count != lc ==> Proportional(x - lb, b.bound.le - lb, rank - lc, b.count - lc))
  {
    InterpolatedInside(lb, lc, b, rank);
    assert b.bound.Inf? || b.count == lc ==> Interpolated(lb, lc, b, rank) == lb;
    hide Interpolated;
  }

  lemma SplitAtRank(bs: seq<Bucket>, q: real)
    requires Histogram(bs) && 0.0 <= q <= 1.0
    ensures SplitsFirst(bs, FirstReaching(bs, Rank(q, Total(bs))), QuantileOfSorted(bs, q), Rank(q, Total(bs)))
  {
    var rank := Rank(q, Total(bs));
    QuantileInReaching(bs, q);
    var i := FirstReaching(bs, rank);
    hide Rank, QuantileOfSorted, Total, Histogram;
    InterpolatedSplits(LowerBound(bs, i, 0.0), LowerCount(bs, i, 0.0), bs[i], rank);
    hide Interpolated, LowerBound, LowerCount, Proportional;
    assert SplitsFirst(bs, i, QuantileOfSorted(bs, q), rank);
  }

  lemma TotalIs(bs: seq<Bucket>, total: real)
    requires Histogram(bs) && IsTotal(bs, total)
    ensures Total(bs) == total
  {
    TotalIsMaximum(bs, 0.0);
    var b :| b in bs && b.count == total;
    var i :| 0 <= i < |bs| && bs[i].count == Total(bs);
    assert bs[i] in bs;
  }

  lemma QuantileInReaching(bs: seq<Bucket>, q: real)
    requires Histogram(bs) && 0.0 <= q <= 1.0
    ensures var rank := Rank(q, Total(bs));
            var i := FirstReaching(bs, rank);
            && i < |bs|
            && QuantileOfSorted(bs, q) == Interpolated(LowerBound(bs, i, 0.0), LowerCount(bs, i, 0.0), bs[i], rank)
            && LowerCount(bs, i, 0.0) <= rank <= bs[i].count
            && LowerBound(bs, i, 0.0) <= QuantileOfSorted(bs, q)
            && AtMost(Fin(LowerBound(bs, i, 0.0)), bs[i].bound)
            && AtMost(Fin(QuantileOfSorted(bs, q)), bs[i].bound)
  {
    var rank := Rank(q, Total(bs));
    RankIsReached(bs, q);
    SearchEndsThere(bs, rank, 0.0, 0.0);
    var i := FirstReaching(bs, rank);
    LowerBoundFacts(bs, i);
    InterpolatedInside(LowerBound(bs, i, 0.0), LowerCount(bs, i, 0.0), bs[i], rank);
  }

  // ----- Cumulative counts: the quantile inverts the piecewise linear count

  predicate Cumulative(bs: seq<Bucket>) {
    forall i, j | 0 <= i < j < |bs| :: bs[i].count <= bs[j].count
  }

  /** The count up to `x`, linear between the bounds, from `lc` at `lb` on; beyond the last finite bound it is flat. */
  function CountUpTo(bs: seq<Bucket>, x: real, lb: real, lc: real): real {
    if bs == [] || bs[0].bound.Inf? then lc
    else if lb <= x < bs[0].bound.le then lc + (bs[0].count - lc) * (x - lb) / (bs[0].bound.le - lb)
    else CountUpTo(bs[1..], x, bs[0].bound.le, bs[0].count)
  }

  /** The count at the last finite bound. */
  function FiniteCount(bs: seq<Bucket>, lc: real): real {
    if bs == [] || bs[0].bound.Inf? then lc else FiniteCount(bs[1..], bs[0].count)
  }

  function MinReal(a: real, b: real): real { if a <= b then a else b }

  lemma {:induction false} FiniteCountGrows(bs: seq<Bucket>, lc: real)
    requires Cumulative(bs) && (bs != [] ==> lc <= bs[0].count)
    ensures lc <= FiniteCount(bs, lc)
    decreases |bs|
  {
    if bs != [] { FiniteCountGrows(bs[1..], bs[0].count); }
  }

  /** One bucket that reaches the rank. */
  lemma {:induction false} InsideCount(bs: seq<Bucket>, rank: real, lb: real, lc: real)
    requires bs != [] && Ascending(bs) && Cumulative(bs) && lc <= rank <= bs[0].count
    requires bs[0].bound.Fin? ==> lb < bs[0].bound.le || (lb == bs[0].bound.le && bs[0].count == rank)
    ensures var x := Interpolated(lb, lc, bs[0], rank);
            x >= lb && CountUpTo(bs, x, lb, lc) == MinReal(rank, FiniteCount(bs, lc))
  {
    var b, x := bs[0], Interpolated(lb, lc, bs[0], rank);
    InterpolatedInside(lb, lc, b, rank);
    hide Interpolated;
    FiniteCountGrows(bs[1..], b.count);
    if b.bound.Fin? {
      var le := b.bound.le;
      if b.count == lc { EmptyBucket(lb, lc, b, rank); }
      if x < le {
        QuotientIs((b.count - lc) * (x - lb), le - lb, rank - lc);
      } else {
        if b.count != lc && lb < le { SameFactor(x - lb, le - lb, b.count - lc, rank - lc); }
        if |bs| > 1 { assert Below(b.bound, bs[1].bound); }
        FlatStart(bs[1..], le, b.count);
      }
    }
  }

  lemma EmptyBucket(lb: real, lc: real, b: Bucket, rank: real)
    requires b.count == lc
    ensures Interpolated(lb, lc, b, rank) == lb
  {
  }

  lemma SameFactor(w: real, v: real, a: real, b: real)
    requires w == v > 0.0 && w * a == v * b
    ensures a == b
  {
    if a < b { PositiveProduct(w, b - a); }
    if b < a { PositiveProduct(w, a - b); }
  }

  lemma FlatStart(bs: seq<Bucket>, lb: real, lc: real)
    requires bs != [] && bs[0].bound.Fin? ==> lb < bs[0].bound.le
    ensures CountUpTo(bs, lb, lb, lc) == lc
  {
    if bs != [] && bs[0].bound.Fin? {
      assert (bs[0].count - lc) * (lb - lb) == 0.0;
      QuotientIs(0.0, bs[0].bound.le - lb, 0.0);
    }
  }

  lemma {:induction false} SearchInverts(bs: seq<Bucket>, rank: real, lb: real, lc: real)
    requires bs != [] && Ascending(bs) && Cumulative(bs) && 0.0 <= lc <= rank <= bs[|bs| - 1].count
    requires lc <= bs[0].count
    requires bs[0].bound.Fin? ==> lb < bs[0].bound.le || (lb == bs[0].bound.le && bs[0].count <= rank)
    ensures var x := Search(bs, rank, lb, lc);
            x >= lb && CountUpTo(bs, x, lb, lc) == MinReal(rank, FiniteCount(bs, lc))
    decreases |bs|
  {
    hide Interpolated;
    if bs[0].count >= rank {
      InsideCount(bs, rank, lb, lc);
    } else {
      assert |bs| > 1 && Below(bs[0].bound, bs[1].bound);
      SearchInverts(bs[1..], rank, bs[0].bound.le, bs[0].count);
    }
  }

  /**
   * For cumulative counts, the count up to the quantile is the `q`-th share of the greatest count, or all that lies
   * below the last finite bound; but for a share of what lies at zero.
   */
  lemma QuantileInvertsCount(bs: seq<Bucket>, q: real, total: real)
    requires Histogram(bs) && Cumulative(bs) && 0.0 <= q <= 1.0 && IsTotal(bs, total)
    ensures var x := QuantileOfSorted(bs, q);
            if bs[0].bound == Fin(0.0) && bs[0].count > q * total then x == 0.0
            else CountUpTo(bs, x, 0.0, 0.0) == MinReal(q * total, FiniteCount(bs, 0.0))
  {
    TotalIs(bs, total);
    ScaleDown(q, total);
    var n := |bs| - 1;
    assert total == bs[n].count by {
      var b :| b in bs && b.count == total;
      assert bs[n] in bs;
    }
    assert bs[0] in bs;
    var rank := Rank(q, total);
    if bs[0].bound == Fin(0.0) && bs[0].count > rank {
      assert Search(bs, rank, 0.0, 0.0) == Interpolated(0.0, 0.0, bs[0], rank);
      assert (0.0 - 0.0) * (rank - 0.0) == 0.0;
      QuotientIs(0.0, bs[0].count, 0.0);
    } else {
      SearchInverts(bs, rank, 0.0, 0.0);
    }
  }

  lemma SortedQuantileMonotone(bs: seq<Bucket>, p: real, q: real)
    requires Histogram(bs) && 0.0 <= p <= q <= 1.0
    ensures QuantileOfSorted(bs, p) <= QuantileOfSorted(bs, q)
  {
    var r1, r2 := Rank(p, Total(bs)), Rank(q, Total(bs));
    RankMonotone(p, q, Total(bs));
    QuantileInReaching(bs, p);
    QuantileInReaching(bs, q);
    var i, j := FirstReaching(bs, r1), FirstReaching(bs, r2);
    hide QuantileOfSorted, Interpolated, Histogram;
    LowerBoundFacts(bs, j);
    if i == j {
      LowerBoundFacts(bs, i);
      InterpolatedMonotone(LowerBound(bs, i, 0.0), LowerCount(bs, i, 0.0), bs[i], r1, r2);
    } else {
      assert i < j;
      InfIsLast(bs, i, j);
    }
  }

  lemma InfIsLast(bs: seq<Bucket>, i: nat, j: nat)
    requires Histogram(bs) && i < j < |bs|
    ensures bs[i].bound.Fin?
  {
    assert Below(bs[i].bound, bs[j].bound);
  }

  /** Monotone in the quantile, for buckets in any order and whether or not the counts are cumulative. */
  lemma {:induction false} QuantileMonotone(bs: seq<Bucket>, p: real, q: real, scale: real)
    requires DistinctBounds(bs) && scale >= 0.0 && 0.0 <= p <= q <= 1.0
    requires forall b | b in bs :: b.count >= 0.0 && (b.bound.Fin? ==> b.bound.le >= 0.0)
    ensures Quantile(bs, p, scale) <= Quantile(bs, q, scale)
  {
    var sorted := Sorted(bs);
    assert QuantileOfSorted(sorted, p) <= QuantileOfSorted(sorted, q) by {
      SortedIsHistogram(bs);
      hide Sorted, Search, Rank, Histogram;
      if Total(sorted) > 0.0 { SortedQuantileMonotone(sorted, p, q); }
    }
    hide QuantileOfSorted, Sorted;
    ScaledOrder(QuantileOfSorted(sorted, p), QuantileOfSorted(sorted, q), scale);
  }

  lemma {:induction false} SortedIsHistogram(bs: seq<Bucket>)
    requires DistinctBounds(bs) && forall b | b in bs :: b.count >= 0.0 && (b.bound.Fin? ==> b.bound.le >= 0.0)
    ensures Total(Sorted(bs)) > 0.0 ==> Histogram(Sorted(bs))
  {
    var sorted := Sorted(bs);
    SortedFacts(bs);
    hide Sorted, Total, Ascending;
    forall b | b in sorted ensures b in bs {
      assert b in multiset(sorted);
    }
  }

  lemma ScaledOrder(a: real, b: real, c: real)
    requires a <= b && c >= 0.0
    ensures a * c <= b * c
  {
  }

  // ----- Counts that are all multiplied by one positive factor

  function Times(c: real, x: real): real {
    c * x
  }

  function Scaled(bs: seq<Bucket>, c: real): seq<Bucket> {
    if bs == [] then [] else [Bucket(bs[0].bound, Times(c, bs[0].count))] + Scaled(bs[1..], c)
  }

  lemma TimesOrder(c: real, x: real, y: real)
    requires c > 0.0
    ensures x < y <==> Times(c, x) < Times(c, y)
    ensures Times(c, 0.0) == 0.0
  {
    if x < y { PositiveProduct(c, y - x); assert c * (y - x) == c * y - c * x; }
    if y < x { PositiveProduct(c, x - y); assert c * (x - y) == c * x - c * y; }
  }

  lemma PositiveProduct(a: real, b: real)
    requires a > 0.0 && b > 0.0
    ensures a * b > 0.0
  {
  }

  lemma QuotientIs(x: real, y: real, f: real)
    requires y != 0.0 && f * y == x
    ensures x / y == f
  {
  }

  lemma InterpolatedScaled(lb: real, lc: real, b: Bucket, rank: real, c: real)
    requires c > 0.0
    ensures Interpolated(lb, Times(c, lc), Bucket(b.bound, Times(c, b.count)), Times(c, rank)) ==
            Interpolated(lb, lc, b, rank)
  {
    TimesOrder(c, b.count, lc);
    TimesOrder(c, lc, b.count);
    if b.bound.Fin? && b.count != lc {
      var w, n, d := b.bound.le - lb, rank - lc, b.count - lc;
      var f := w * n / d;
      assert f * d == w * n;
      assert Times(c, rank) - Times(c, lc) == c * n && Times(c, b.count) - Times(c, lc) == c * d;
      assert f * (c * d) == w * (c * n) by {
        assert f * (c * d) == c * (f * d);
        assert w * (c * n) == c * (w * n);
      }
      assert c * d != 0.0;
      QuotientIs(w * (c * n), c * d, f);
    }
  }

  lemma {:induction false} SearchScaled(bs: seq<Bucket>, rank: real, lb: real, lc: real, c: real)
    requires c > 0.0
    ensures Search(Scaled(bs, c), Times(c, rank), lb, Times(c, lc)) == Search(bs, rank, lb, lc)
    decreases |bs|
  {
    hide Times, Interpolated;
    if bs != [] {
      var b := bs[0];
      TimesOrder(c, b.count, 0.0);
      TimesOrder(c, b.count, rank);
      InterpolatedScaled(lb, lc, b, rank, c);
      assert Scaled(bs, c)[1..] == Scaled(bs[1..], c);
      SearchScaled(bs[1..], rank, lb, lc, c);
      SearchScaled(bs[1..], rank, if b.bound.Inf? then lb else b.bound.le, b.count, c);
    }
  }

  lemma {:induction false} TotalScaled(bs: seq<Bucket>, t: real, c: real)
    requires c > 0.0
    ensures TotalFrom(Scaled(bs, c), Times(c, t)) == Times(c, TotalFrom(bs, t))
    decreases |bs|
  {
    hide Times;
    if bs != [] {
      var b := bs[0];
      TimesOrder(c, b.count, 0.0);
      TimesOrder(c, t, b.count);
      TimesOrder(c, b.count, t);
      assert Scaled(bs, c)[1..] == Scaled(bs[1..], c);
      TotalScaled(bs[1..], t, c);
      TotalScaled(bs[1..], MaxReal(t, b.count), c);
    }
  }

  lemma {:induction false} InsertScaled(b: Bucket, bs: seq<Bucket>, c: real)
    ensures Insert(Bucket(b.bound, Times(c, b.count)), Scaled(bs, c)) == Scaled(Insert(b, bs), c)
    decreases |bs|
  {
    hide Times;
    assert ([b] + bs)[1..] == bs;
    if bs != [] && !AtMost(b.bound, bs[0].bound) {
      assert Scaled(bs, c)[1..] == Scaled(bs[1..], c);
      InsertScaled(b, bs[1..], c);
      assert ([bs[0]] + Insert(b, bs[1..]))[1..] == Insert(b, bs[1..]);
    }
  }

  lemma {:induction false} SortedScaled(bs: seq<Bucket>, c: real)
    ensures Sorted(Scaled(bs, c)) == Scaled(Sorted(bs), c)
    decreases |bs|
  {
    hide Times;
    if bs != [] {
      SortedScaled(bs[1..], c);
      InsertScaled(bs[0], Sorted(bs[1..]), c);
      assert Scaled(bs, c)[1..] == Scaled(bs[1..], c);
    }
  }

  lemma RankScaled(q: real, t: real, c: real)
    ensures Rank(q, Times(c, t)) == Times(c, Rank(q, t))
  {
    assert q * (c * t) == c * (q * t);
  }

  /** No quantile of any list of buckets depends on the unit of its counts. */
  lemma QuantileOfScaledCounts(bs: seq<Bucket>, q: real, scale: real, c: real)
    requires c > 0.0
    ensures Quantile(Scaled(bs, c), q, scale) == Quantile(bs, q, scale)
  {
    var sorted := Sorted(bs);
    SortedScaled(bs, c);
    TimesOrder(c, 0.0, Total(sorted));
    TotalScaled(sorted, 0.0, c);
    RankScaled(q, Total(sorted), c);
    SearchScaled(sorted, Rank(q, Total(sorted)), 0.0, 0.0, c);
    hide Times, Search, Sorted, Rank;
    assert QuantileOfSorted(Scaled(sorted, c), q) == QuantileOfSorted(sorted, q);
  }

  /** The same of any distinct buckets, in any order; and 0 where there is nothing to share. */
  lemma {:induction false} QuantileOfAnyOrder(bs: seq<Bucket>, q: real, total: real) returns (i: nat)
    requires DistinctBounds(bs) && IsTotal(bs, total) && 0.0 <= q <= 1.0
    requires forall b | b in bs :: b.count >= 0.0 && (b.bound.Fin? ==> b.bound.le >= 0.0)
    ensures total == 0.0 ==> Quantile(bs, q, 1.0) == 0.0
    ensures total > 0.0 ==> SplitsFirst(Sorted(bs), i, Quantile(bs, q, 1.0), q * total)
  {
    var sorted := Sorted(bs);
    SortedFacts(bs);
    SortedTotal(bs, total);
    TotalIsMaximum(sorted, 0.0);
    SortedIsHistogram(bs);
    assert Quantile(bs, q, 1.0) == QuantileOfSorted(sorted, q) by { hide Sorted, QuantileOfSorted; }
    i := 0;
    if total > 0.0 {
      PositiveTotal(sorted, total);
      hide *;
      i := QuantileInFirstReaching(sorted, q, total);
    } else {
      NoTotal(sorted, total);
      hide Sorted, Total, Search, Rank;
    }
  }

  lemma PositiveTotal(bs: seq<Bucket>, total: real)
    requires IsTotal(bs, total) && total > 0.0 && forall b | b in bs :: b.count <= Total(bs)
    ensures Total(bs) > 0.0
  {
  }

  lemma NoTotal(bs: seq<Bucket>, total: real)
    requires IsTotal(bs, total) && total <= 0.0
    requires Total(bs) == 0.0 || exists i | 0 <= i < |bs| :: bs[i].count == Total(bs)
    ensures Total(bs) <= 0.0
  {
  }

  lemma {:induction false} SortedTotal(bs: seq<Bucket>, total: real)
    requires DistinctBounds(bs) && IsTotal(bs, total)
    ensures IsTotal(Sorted(bs), total) && forall b :: b in Sorted(bs) <==> b in bs
  {
    SortedFacts(bs);
    hide Sorted, Ascending, DistinctBounds;
    forall b ensures b in Sorted(bs) <==> b in bs {
      assert b in multiset(Sorted(bs)) <==> b in multiset(bs);
    }
  }

  // ----- Negative counts are skipped

  function Counted(bs: seq<Bucket>): seq<Bucket> {
    if bs == [] then [] else if bs[0].count < 0.0 then Counted(bs[1..]) else [bs[0]] + Counted(bs[1..])
  }

  predicate Ordered(bs: seq<Bucket>) {
    bs == [] || ((forall b | b in bs[1..] :: AtMost(bs[0].bound, b.bound)) && Ordered(bs[1..]))
  }

  lemma {:induction false} InsertOrdered(b: Bucket, bs: seq<Bucket>)
    requires Ordered(bs)
    ensures Ordered(Insert(b, bs))
    decreases |bs|
  {
    if bs == [] {
    } else if AtMost(b.bound, bs[0].bound) {
      assert ([b] + bs)[1..] == bs;
      assert forall x | x in bs :: x == bs[0] || x in bs[1..];
    } else {
      var rest := Insert(b, bs[1..]);
      InsertOrdered(b, bs[1..]);
      InsertKeeps(b, bs[1..]);
      assert ([bs[0]] + rest)[1..] == rest;
      forall x | x in rest ensures AtMost(bs[0].bound, x.bound) {
        assert x in multiset(rest);
        assert x == b || x in multiset(bs[1..]);
      }
    }
  }

  lemma {:induction false} CountedMembers(bs: seq<Bucket>)
    ensures forall b :: b in Counted(bs) <==> b in bs && b.count >= 0.0
    decreases |bs|
  {
    if bs != [] {
      CountedMembers(bs[1..]);
      assert forall b :: b in bs <==> b == bs[0] || b in bs[1..];
    }
  }

  lemma CountedCons(b: Bucket, bs: seq<Bucket>)
    ensures Counted([b] + bs) == if b.count < 0.0 then Counted(bs) else [b] + Counted(bs)
  {
    assert ([b] + bs)[1..] == bs;
  }

  lemma {:induction false} CountedInsert(b: Bucket, bs: seq<Bucket>)
    requires Ordered(bs)
    ensures Counted(Insert(b, bs)) == if b.count < 0.0 then Counted(bs) else Insert(b, Counted(bs))
    decreases |bs|
  {
    if bs == [] || AtMost(b.bound, bs[0].bound) {
      CountedCons(b, bs);
      CountedMembers(bs);
      if Counted(bs) != [] { FirstIsLeast(b, bs, Counted(bs)[0]); }
    } else {
      CountedInsert(b, bs[1..]);
      CountedCons(bs[0], Insert(b, bs[1..]));
      CountedCons(bs[0], bs[1..]);
      assert [bs[0]] + bs[1..] == bs;
    }
  }

  lemma FirstIsLeast(b: Bucket, bs: seq<Bucket>, x: Bucket)
    requires Ordered(bs) && x in bs && AtMost(b.bound, bs[0].bound)
    ensures AtMost(b.bound, x.bound)
  {
    assert x == bs[0] || x in bs[1..];
  }

  lemma {:induction false} SortedOfCounted(bs: seq<Bucket>)
    ensures Ordered(Sorted(bs)) && Sorted(Counted(bs)) == Counted(Sorted(bs))
    decreases |bs|
  {
    if bs != [] {
      SortedOfCounted(bs[1..]);
      InsertOrdered(bs[0], Sorted(bs[1..]));
      CountedInsert(bs[0], Sorted(bs[1..]));
      if bs[0].count >= 0.0 { assert Counted(bs)[1..] == Counted(bs[1..]); }
    }
  }

  lemma {:induction false} TotalOfCounted(bs: seq<Bucket>, total: real)
    ensures TotalFrom(Counted(bs), total) == TotalFrom(bs, total)
    decreases |bs|
  {
    if bs != [] {
      TotalOfCounted(bs[1..], total);
      TotalOfCounted(bs[1..], MaxReal(total, bs[0].count));
      if bs[0].count >= 0.0 { assert Counted(bs)[1..] == Counted(bs[1..]); }
    }
  }

  lemma {:induction false} SearchOfCounted(bs: seq<Bucket>, rank: real, lb: real, lc: real)
    ensures Search(Counted(bs), rank, lb, lc) == Search(bs, rank, lb, lc)
    decreases |bs|
  {
    hide Interpolated;
    if bs != [] {
      SearchOfCounted(bs[1..], rank, lb, lc);
      SearchOfCounted(bs[1..], rank, if bs[0].bound.Inf? then lb else bs[0].bound.le, bs[0].count);
      if bs[0].count >= 0.0 { assert Counted(bs)[1..] == Counted(bs[1..]); }
    }
  }

  /** Buckets with negative counts play no part. */
  lemma {:induction false} NegativeCountsAreSkipped(bs: seq<Bucket>, q: real, scale: real)
    ensures Quantile(bs, q, scale) == Quantile(Counted(bs), q, scale)
  {
    var sorted := Sorted(bs);
    SortedOfCounted(bs);
    TotalOfCounted(sorted, 0.0);
    SearchOfCounted(sorted, Rank(q, Total(sorted)), 0.0, 0.0);
    if Counted(bs) == [] { assert Total(sorted) == 0.0; }
    hide Search, Sorted, Rank, Counted;
    assert QuantileOfSorted(Counted(sorted), q) == QuantileOfSorted(sorted, q);
  }

  /** The quantile is linear in `scale`. */
  lemma QuantileLinearInScale(bs: seq<Bucket>, q: real, s: real, t: real)
    ensures Quantile(bs, q, s + t) == Quantile(bs, q, s) + Quantile(bs, q, t)
    ensures Quantile(bs, q, s * t) == s * Quantile(bs, q, t)
  {
    var x := QuantileOfSorted(Sorted(bs), q);
    hide QuantileOfSorted, Sorted;
    assert x * (s + t) == x * s + x * t;
    assert x * (s * t) == s * (x * t);
  }
}
