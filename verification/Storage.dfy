/** Pruning of a stored table: only the newest rows stay. */
module Storages {
  datatype Row = Row(id: nat, timestamp: real)

  /** The rows at or after `threshold`, in their order. */
  function From(rows: seq<Row>, threshold: real): seq<Row> {
    if rows == [] then []
    else (if rows[0].timestamp < threshold then [] else [rows[0]]) + From(rows[1..], threshold)
  }

  /** `ORDER BY timestamp DESC`. */
  function Descending(rows: seq<Row>): seq<real> {
    if rows == [] then [] else Insert(rows[0].timestamp, Descending(rows[1..]))
  }

  function Insert(t: real, ts: seq<real>): seq<real> {
    if ts == [] then [t]
    else if t >= ts[0] then [t] + ts
    else [ts[0]] + Insert(t, ts[1..])
  }

  predicate IsDescending(ts: seq<real>) {
    ts == [] || (IsDescending(ts[1..]) && AtMost(ts[1..], ts[0]))
  }

  predicate AtMost(ts: seq<real>, t: real) {
    forall u | u in ts :: u <= t
  }

  /** How many timestamps are at or after `threshold`. */
  function CountFrom(ts: seq<real>, threshold: real): nat {
    if ts == [] then 0 else (if ts[0] < threshold then 0 else 1) + CountFrom(ts[1..], threshold)
  }

  predicate DistinctTimes(rows: seq<Row>) {
    forall i, j | 0 <= i < j < |rows| :: rows[i].timestamp != rows[j].timestamp
  }

  // ----- Sorting

  lemma {:induction false} InsertKeeps(t: real, ts: seq<real>, threshold: real)
    ensures |Insert(t, ts)| == |ts| + 1
    ensures CountFrom(Insert(t, ts), threshold) == CountFrom(ts, threshold) + if t < threshold then 0 else 1
    ensures forall u :: u in Insert(t, ts) <==> u == t || u in ts
    decreases |ts|
  {
    if ts == [] {
    } else if t >= ts[0] {
      assert ([t] + ts)[1..] == ts;
    } else {
      InsertKeeps(t, ts[1..], threshold);
      var rest := Insert(t, ts[1..]);
      assert ([ts[0]] + rest)[1..] == rest;
      forall u ensures u in [ts[0]] + rest <==> u == t || u in ts {
        assert u in ts <==> u == ts[0] || u in ts[1..];
      }
    }
  }

  lemma {:induction false} InsertSorts(t: real, ts: seq<real>)
    requires IsDescending(ts)
    ensures IsDescending(Insert(t, ts))
    decreases |ts|
  {
    if ts == [] {
    } else if t >= ts[0] {
      assert ([t] + ts)[1..] == ts;
      forall u | u in ts ensures u <= t { OneOf(ts, u); }
    } else {
      InsertSorts(t, ts[1..]);
      InsertKeeps(t, ts[1..], 0.0);
      var rest := Insert(t, ts[1..]);
      assert ([ts[0]] + rest)[1..] == rest;
    }
  }

  lemma {:induction false} DescendingFacts(rows: seq<Row>, threshold: real)
    ensures IsDescending(Descending(rows)) && |Descending(rows)| == |rows|
    ensures CountFrom(Descending(rows), threshold) == |From(rows, threshold)|
  {
    if rows != [] {
      DescendingFacts(rows[1..], threshold);
      InsertKeeps(rows[0].timestamp, Descending(rows[1..]), threshold);
      InsertSorts(rows[0].timestamp, Descending(rows[1..]));
    }
  }

  predicate IsStrict(ts: seq<real>) {
    ts == [] || (IsStrict(ts[1..]) && forall u | u in ts[1..] :: u < ts[0])
  }

  lemma {:induction false} InsertStrict(t: real, ts: seq<real>)
    requires IsStrict(ts) && t !in ts
    ensures IsStrict(Insert(t, ts))
    decreases |ts|
  {
    if ts == [] {
    } else if t >= ts[0] {
      assert ([t] + ts)[1..] == ts;
      forall u | u in ts ensures u < t { OneOf(ts, u); }
    } else {
      InsertStrict(t, ts[1..]);
      InsertKeeps(t, ts[1..], 0.0);
      var rest := Insert(t, ts[1..]);
      assert ([ts[0]] + rest)[1..] == rest;
    }
  }

  lemma OneOf(ts: seq<real>, u: real)
    requires u in ts
    ensures u == ts[0] || u in ts[1..]
  {
  }

  lemma {:induction false} DistinctIsStrict(rows: seq<Row>)
    requires DistinctTimes(rows)
    ensures IsStrict(Descending(rows))
    ensures forall u :: u in Descending(rows) ==> exists k | 0 <= k < |rows| :: rows[k].timestamp == u
  {
    if rows != [] {
      var rest := rows[1..];
      DistinctIsStrict(rest);
      forall k | 0 <= k < |rest| ensures rest[k].timestamp != rows[0].timestamp {
        assert rest[k] == rows[k + 1];
      }
      InsertStrict(rows[0].timestamp, Descending(rest));
      InsertKeeps(rows[0].timestamp, Descending(rest), 0.0);
      forall u | u in Descending(rows) ensures exists k | 0 <= k < |rows| :: rows[k].timestamp == u {
        if u == rows[0].timestamp {
          assert rows[0].timestamp == u;
        } else {
          var k :| 0 <= k < |rest| && rest[k].timestamp == u;
          assert rows[k + 1].timestamp == u;
        }
      }
    }
  }

  /** At least `k + 1` timestamps are at or after the one at position `k`, and no more when they are distinct. */
  lemma {:induction false} CountAtPosition(ts: seq<real>, k: nat)
    requires IsDescending(ts) && k < |ts|
    ensures CountFrom(ts, ts[k]) >= k + 1
    ensures IsStrict(ts) ==> CountFrom(ts, ts[k]) == k + 1
    decreases |ts|
  {
    if k > 0 {
      assert ts[1..][k - 1] == ts[k] && ts[k] in ts[1..];
      CountAtPosition(ts[1..], k - 1);
    } else if IsStrict(ts) {
      CountNone(ts[1..], ts[0]);
    }
  }

  lemma {:induction false} CountNone(ts: seq<real>, t: real)
    requires forall u | u in ts :: u < t
    ensures CountFrom(ts, t) == 0
  {
    if ts != [] {
      assert ts[0] in ts && forall u :: u in ts[1..] ==> u in ts;
      CountNone(ts[1..], t);
    }
  }

  // ----- Pruning

  /** `OFFSET keep_count - 1`; a negative offset is none. */
  function Offset(keepCount: int): nat {
    if keepCount >= 1 then keepCount - 1 else 0
  }

  /** What one uninterrupted pruning leaves. */
  function Pruned(rows: seq<Row>, keepCount: int): seq<Row> {
    var ts := Descending(rows);
    if Offset(keepCount) < |ts| then From(rows, ts[Offset(keepCount)]) else rows
  }

  function Before(rows: seq<Row>, threshold: real): seq<Row> {
    if rows == [] then []
    else (if rows[0].timestamp < threshold then [rows[0]] else []) + Before(rows[1..], threshold)
  }

  /** Some rows are kept, and the others are all strictly older than these. */
  ghost predicate Splits(rows: seq<Row>, kept: seq<Row>) {
    exists deleted: seq<Row> ::
      && multiset(rows) == multiset(kept) + multiset(deleted)
      && OlderThanAll(deleted, kept)
  }

  predicate OlderThanAll(a: seq<Row>, b: seq<Row>) {
    forall x, y | x in a && y in b :: x.timestamp < y.timestamp
  }

  lemma {:induction false} FromSplits(rows: seq<Row>, t: real)
    ensures multiset(rows) == multiset(From(rows, t)) + multiset(Before(rows, t))
    ensures forall r | r in From(rows, t) :: r.timestamp >= t
    ensures forall r | r in Before(rows, t) :: r.timestamp < t
  {
    if rows != [] {
      FromSplits(rows[1..], t);
      assert rows == [rows[0]] + rows[1..];
    }
  }

  /**
   * Pruning keeps at least `keepCount` rows, or all; deletes only rows strictly older than every kept one;
   * and keeps exactly `keepCount` when there are as many and no two have the same time.
   */
  lemma PrunedKeepsNewest(rows: seq<Row>, keepCount: int)
    ensures Splits(rows, Pruned(rows, keepCount))
    ensures |Pruned(rows, keepCount)| >= if |rows| < keepCount then |rows| else keepCount
    ensures DistinctTimes(rows) && |rows| >= keepCount >= 1 ==> |Pruned(rows, keepCount)| == keepCount
  {
    var ts := Descending(rows);
    DescendingFacts(rows, 0.0);
    if Offset(keepCount) < |ts| {
      var t := ts[Offset(keepCount)];
      DescendingFacts(rows, t);
      CountAtPosition(ts, Offset(keepCount));
      FromSplits(rows, t);
      assert OlderThanAll(Before(rows, t), From(rows, t));
      if DistinctTimes(rows) { DistinctIsStrict(rows); }
    } else {
      assert multiset(rows) == multiset(rows) + multiset([]) && OlderThanAll([], rows);
    }
  }

  /** How many timestamps are strictly after `t`. */
  function CountAfter(ts: seq<real>, t: real): nat {
    if ts == [] then 0 else (if ts[0] > t then 1 else 0) + CountAfter(ts[1..], t)
  }

  lemma {:induction false} CountAfterInsert(u: real, ts: seq<real>, t: real)
    ensures CountAfter(Insert(u, ts), t) == CountAfter(ts, t) + if u > t then 1 else 0
    decreases |ts|
  {
    if ts != [] {
      if u >= ts[0] {
        assert ([u] + ts)[1..] == ts;
      } else {
        CountAfterInsert(u, ts[1..], t);
        var rest := Insert(u, ts[1..]);
        assert ([ts[0]] + rest)[1..] == rest;
      }
    }
  }

  /** How many rows are strictly newer than `t`. */
  function Newer(rows: seq<Row>, t: real): nat {
    if rows == [] then 0 else (if rows[0].timestamp > t then 1 else 0) + Newer(rows[1..], t)
  }

  lemma {:induction false} NewerIsCount(rows: seq<Row>, t: real)
    ensures CountAfter(Descending(rows), t) == Newer(rows, t)
    decreases |rows|
  {
    if rows != [] {
      NewerIsCount(rows[1..], t);
      CountAfterInsert(rows[0].timestamp, Descending(rows[1..]), t);
    }
  }

  /** Fewer than `k + 1` timestamps lie after `t` exactly when `t` is not before the one at position `k`. */
  lemma {:induction false} AfterPosition(ts: seq<real>, k: nat, t: real)
    requires IsDescending(ts) && k < |ts|
    ensures CountAfter(ts, t) <= k <==> t >= ts[k]
    decreases |ts|
  {
    if k > 0 {
      assert ts[1..][k - 1] == ts[k] && ts[k] in ts[1..];
      AfterPosition(ts[1..], k - 1, t);
      if ts[0] <= t { NoneAfter(ts[1..], t); }
    } else if ts[0] <= t {
      NoneAfter(ts[1..], t);
    }
  }

  lemma {:induction false} NoneAfter(ts: seq<real>, t: real)
    requires AtMost(ts, t)
    ensures CountAfter(ts, t) == 0
    decreases |ts|
  {
    if ts != [] {
      assert ts[0] in ts && forall u :: u in ts[1..] ==> u in ts;
      NoneAfter(ts[1..], t);
    }
  }

  lemma {:induction false} NewerBounded(rows: seq<Row>, r: Row)
    requires r in rows
    ensures Newer(rows, r.timestamp) < |rows|
    decreases |rows|
  {
    if rows[0] == r {
      NewerAtMost(rows[1..], r.timestamp);
    } else {
      NewerBounded(rows[1..], r);
    }
  }

  lemma {:induction false} NewerAtMost(rows: seq<Row>, t: real)
    ensures Newer(rows, t) <= |rows|
    decreases |rows|
  {
    if rows != [] { NewerAtMost(rows[1..], t); }
  }

  lemma {:induction false} InFrom(rows: seq<Row>, t: real, r: Row)
    ensures r in From(rows, t) <==> r in rows && r.timestamp >= t
    decreases |rows|
  {
    if rows != [] {
      InFrom(rows[1..], t, r);
      assert r in rows <==> r == rows[0] || r in rows[1..];
    }
  }

  /** A row is kept exactly when fewer rows than the asked number, which counts as one at least, are newer. */
  lemma {:induction false} KeptExactly(rows: seq<Row>, keepCount: int, r: Row)
    requires r in rows
    ensures r in Pruned(rows, keepCount) <==> Newer(rows, r.timestamp) < if keepCount >= 1 then keepCount else 1
  {
    var ts, k := Descending(rows), Offset(keepCount);
    DescendingFacts(rows, 0.0);
    NewerIsCount(rows, r.timestamp);
    NewerBounded(rows, r);
    if k < |ts| {
      AfterPosition(ts, k, r.timestamp);
      InFrom(rows, ts[k], r);
    }
  }

  // ----- Pruning again

  function Until(ts: seq<real>, threshold: real): seq<real> {
    if ts == [] || ts[0] < threshold then [] else [ts[0]] + Until(ts[1..], threshold)
  }

  lemma {:induction false} UntilInsert(u: real, ts: seq<real>, t: real)
    requires IsDescending(ts)
    ensures Until(Insert(u, ts), t) == if u < t then Until(ts, t) else Insert(u, Until(ts, t))
    decreases |ts|
  {
    if ts == [] {
    } else if u >= ts[0] {
      assert ([u] + ts)[1..] == ts;
    } else {
      UntilInsert(u, ts[1..], t);
      var rest := Insert(u, ts[1..]);
      assert ([ts[0]] + rest)[1..] == rest;
      if ts[0] >= t { assert ([ts[0]] + Until(ts[1..], t))[1..] == Until(ts[1..], t); }
    }
  }

  lemma {:induction false} DescendingFrom(rows: seq<Row>, t: real)
    ensures Descending(From(rows, t)) == Until(Descending(rows), t)
  {
    if rows != [] {
      DescendingFrom(rows[1..], t);
      DescendingFacts(rows[1..], t);
      UntilInsert(rows[0].timestamp, Descending(rows[1..]), t);
      if rows[0].timestamp < t {
        assert From(rows, t) == From(rows[1..], t);
      } else {
        assert From(rows, t)[1..] == From(rows[1..], t);
      }
    }
  }

  lemma {:induction false} UntilKeepsPosition(ts: seq<real>, k: nat)
    requires IsDescending(ts) && k < |ts|
    ensures k < |Until(ts, ts[k])| && Until(ts, ts[k])[k] == ts[k]
    decreases |ts|
  {
    if k > 0 {
      assert ts[1..][k - 1] == ts[k] && ts[k] in ts[1..];
      UntilKeepsPosition(ts[1..], k - 1);
    }
  }

  lemma {:induction false} FromTwice(rows: seq<Row>, t: real)
    ensures From(From(rows, t), t) == From(rows, t)
  {
    if rows != [] {
      FromTwice(rows[1..], t);
      if rows[0].timestamp < t {
        assert From(rows, t) == From(rows[1..], t);
      } else {
        assert From(rows, t)[1..] == From(rows[1..], t);
      }
    }
  }

  /** Pruning a pruned table deletes nothing. */
  lemma PruneTwice(rows: seq<Row>, keepCount: int)
    ensures Pruned(Pruned(rows, keepCount), keepCount) == Pruned(rows, keepCount)
  {
    var ts, k := Descending(rows), Offset(keepCount);
    if k < |ts| {
      DescendingFacts(rows, ts[k]);
      DescendingFrom(rows, ts[k]);
      UntilKeepsPosition(ts, k);
      FromTwice(rows, ts[k]);
    }
  }

  class Storage {
    var rows: seq<Row>

    constructor (rows: seq<Row>)
      ensures this.rows == rows
    {
      this.rows := rows;
    }

    /**
     * Deletes the rows older than the `keepCount`-th newest, and returns how many. `fails(i)` tells whether a
     * database error strikes at step `i`; then 0 is returned, with the table as before or, after the last step,
     * pruned.
     */
    method Prune(keepCount: int, fails: nat -> bool) returns (deleted: nat)
      modifies this
      ensures rows == if fails(0) then old(rows) else Pruned(old(rows), keepCount)
      ensures deleted == if fails(0) || fails(1) then 0 else |old(rows)| - |rows|
    {
      DescendingFacts(rows, 0.0);
      if fails(0) { return 0; }
      var ts := Descending(rows);
      if Offset(keepCount) >= |ts| { return 0; }
      var threshold := ts[Offset(keepCount)];
      var kept := From(rows, threshold);
      FromSplits(rows, threshold);
      assert |multiset(rows)| == |multiset(kept)| + |multiset(Before(rows, threshold))|;
      deleted := |rows| - |kept|;
      if deleted == 0 {
        KeptAll(rows, threshold);
        return;
      }
      rows := kept;
      if fails(1) { deleted := 0; }
    }
  }

  lemma {:induction false} KeptAll(rows: seq<Row>, t: real)
    ensures |From(rows, t)| <= |rows| && (|From(rows, t)| == |rows| ==> From(rows, t) == rows)
  {
    if rows != [] {
      KeptAll(rows[1..], t);
      assert rows == [rows[0]] + rows[1..];
    }
  }
}
