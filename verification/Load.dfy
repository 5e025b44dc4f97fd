/** Load runs: accounting of results, and the early abort after a failed first batch. */
module Load {
  import opened PatchAlgebra

  datatype RequestResult =
    RequestResult(reqId: int, success: bool, outputTokens: nat, error: string, latency: real)

  const KEPT_RESULTS := 1000

  // ----- What a sequence of processed results adds up to

  function Last(rs: seq<RequestResult>, n: nat): seq<RequestResult> {
    if |rs| > n then rs[|rs| - n..] else rs
  }

  function Successes(rs: seq<RequestResult>): nat {
    if rs == [] then 0 else Successes(rs[..|rs| - 1]) + if rs[|rs| - 1].success then 1 else 0
  }

  function Tokens(rs: seq<RequestResult>): nat {
    if rs == [] then 0
    else Tokens(rs[..|rs| - 1]) + if rs[|rs| - 1].success then rs[|rs| - 1].outputTokens else 0
  }

  lemma LastOfLast(rs: seq<RequestResult>, r: RequestResult, n: nat)
    ensures Last(Last(rs, n) + [r], n) == Last(rs + [r], n)
  {
  }

  // ----- The early abort

  type ById = map<int, RequestResult>

  /** The results of the first batch so far, with one more. */
  function Collect(m: ById, size: int, rs: seq<RequestResult>): ById
    decreases |rs|
  {
    if rs == [] then m
    else Collect(if 0 <= rs[0].reqId < size then m[rs[0].reqId := rs[0]] else m, size, rs[1..])
  }

  function Errors(m: ById): set<string> {
    set i | i in m && !m[i].success && m[i].error != "" :: m[i].error
  }

  /** The common error when all failed and their non-empty errors form a singleton. */
  ghost predicate Condemned(m: ById, error: string) {
    (forall i | i in m :: !m[i].success) && Errors(m) == {error}
  }

  datatype Checker = Checker(results: ById, checked: bool)

  ghost predicate Reported(m: ById, verdict: Option<string>) {
    if verdict.Some? then Condemned(m, verdict.value) else forall e :: !Condemned(m, e)
  }

  /** One call of the checker. */
  ghost predicate Checks(c: Checker, size: int, batch: seq<RequestResult>, c': Checker, verdict: Option<string>) {
    if c.checked || size <= 0 then c' == c && verdict == None
    else
      var m := Collect(c.results, size, batch);
      if |m| < size then c' == Checker(m, false) && verdict == None
      else c' == Checker(m, true) && Reported(m, verdict)
  }

  // ----- Runs of the checker

  /** A run of the checker over batches: states and verdicts, call by call. */
  ghost predicate Run(size: int, batches: seq<seq<RequestResult>>, states: seq<Checker>,
    verdicts: seq<Option<string>>) {
    && |verdicts| == |batches| && |states| == |batches| + 1
    && forall i | 0 <= i < |batches| :: Checks(states[i], size, batches[i], states[i + 1], verdicts[i])
  }

  function Flatten(batches: seq<seq<RequestResult>>): seq<RequestResult> {
    if batches == [] then [] else batches[0] + Flatten(batches[1..])
  }

  /** The verdicts that reported something, in order. */
  function Reports(verdicts: seq<Option<string>>): seq<string> {
    if verdicts == [] then []
    else if verdicts[0].Some? then [verdicts[0].value] + Reports(verdicts[1..])
    else Reports(verdicts[1..])
  }

  lemma RunOneMore(
    size: int, batches: seq<seq<RequestResult>>, states: seq<Checker>, verdicts: seq<Option<string>>,
    batch: seq<RequestResult>, c: Checker, verdict: Option<string>)
    requires Run(size, batches, states, verdicts) && Checks(states[|batches|], size, batch, c, verdict)
    ensures Run(size, batches + [batch], states + [c], verdicts + [verdict])
    ensures |states| == |batches| + 1
  {
    hide Checks;
    var bs, cs, vs := batches + [batch], states + [c], verdicts + [verdict];
    forall i | 0 <= i < |bs| ensures Checks(cs[i], size, bs[i], cs[i + 1], vs[i]) {
      if i < |batches| { assert Checks(states[i], size, batches[i], states[i + 1], verdicts[i]); }
    }
  }

  lemma {:induction false} FlattenOneMore(batches: seq<seq<RequestResult>>, batch: seq<RequestResult>)
    ensures Flatten(batches + [batch]) == Flatten(batches) + batch
  {
    if batches == [] {
      assert [batch][1..] == [];
    } else {
      assert (batches + [batch])[1..] == batches[1..] + [batch];
      FlattenOneMore(batches[1..], batch);
    }
  }

  lemma {:induction false} ReportsOneMore(verdicts: seq<Option<string>>, v: Option<string>)
    ensures Reports(verdicts + [v]) == Reports(verdicts) + if v.Some? then [v.value] else []
  {
    if verdicts == [] {
      assert [v][1..] == [];
    } else {
      assert (verdicts + [v])[1..] == verdicts[1..] + [v];
      ReportsOneMore(verdicts[1..], v);
    }
  }

  class FailureChecker {
    const size: int
    var state: Checker
    /** All calls so far: the batches given, the states between them, and the verdicts. */
    ghost var batches: seq<seq<RequestResult>>
    ghost var states: seq<Checker>
    ghost var verdicts: seq<Option<string>>

    constructor (size: int)
      ensures this.size == size && Valid() && batches == []
    {
      this.size, state := size, Checker(map[], false);
      batches, states, verdicts := [], [Checker(map[], false)], [];
    }

    ghost predicate Valid()
      reads this
    {
      && Run(size, batches, states, verdicts)
      && states[0] == Checker(map[], false) && states[|batches|] == state
    }

    /** One call of the checker, and what it adds to the run. */
    method Check(batch: seq<RequestResult>) returns (verdict: Option<string>)
      requires Valid()
      modifies this
      ensures Valid() && batches == old(batches) + [batch]
      ensures Reports(verdicts) == old(Reports(verdicts)) + if verdict.Some? then [verdict.value] else []
    {
      hide Checks, Run, Reports;
      verdict := Judge(batch);
      RunOneMore(size, batches, states, verdicts, batch, state, verdict);
      ReportsOneMore(verdicts, verdict);
      batches, states, verdicts := batches + [batch], states + [state], verdicts + [verdict];
    }

    method Judge(batch: seq<RequestResult>) returns (verdict: Option<string>)
      modifies this`state
      ensures Checks(old(state), size, batch, state, verdict)
    {
      if state.checked || size <= 0 { return None; }
      var m := state.results;
      for i := 0 to |batch|
        invariant state == old(state)
        invariant Collect(m, size, batch[i..]) == Collect(old(state).results, size, batch)
      {
        assert batch[i..][1..] == batch[i + 1..];
        if 0 <= batch[i].reqId < size { m := m[batch[i].reqId := batch[i]]; }
      }
      if |m| < size {
        state := Checker(m, false);
        return None;
      }
      state := Checker(m, true);
      verdict := None;
      var errors := Errors(m);
      if (forall i | i in m :: !m[i].success) && |errors| == 1 {
        var e :| e in errors;
        SingletonSet(errors, e);
        verdict := Some(e);
      }
    }
  }

  lemma SingletonSet(s: set<string>, e: string)
    requires e in s && |s| == 1
    ensures s == {e}
  {
    assert |s - {e}| == 0;
  }

  predicate FirstIds(m: ById, size: int) {
    forall i :: i in m ==> 0 <= i < size
  }

  /** No id of the first batch comes twice, or after it has been collected. */
  predicate Fresh(m: ById, size: int, rs: seq<RequestResult>) {
    && (forall k | 0 <= k < |rs| && 0 <= rs[k].reqId < size :: rs[k].reqId !in m)
    && (forall j, k | 0 <= j < k < |rs| && 0 <= rs[j].reqId < size :: rs[j].reqId != rs[k].reqId)
  }

  function Ids(size: nat): (r: set<int>)
    ensures |r| == size && forall i :: i in r <==> 0 <= i < size
  {
    if size == 0 then {} else Ids(size - 1) + {size - 1}
  }

  lemma Subset(a: set<int>, b: set<int>)
    requires a <= b
    ensures |a| <= |b| && (|a| == |b| ==> a == b)
  {
    assert a + (b - a) == b && a * (b - a) == {};
    assert |b| == |a| + |b - a|;
    if |a| == |b| { assert b - a == {}; }
  }

  /** A collected batch never outgrows its size, and is complete exactly at it. */
  lemma FirstIdsCount(m: ById, size: nat)
    requires FirstIds(m, size)
    ensures |m| <= size && (|m| == size <==> m.Keys == Ids(size))
  {
    assert m.Keys <= Ids(size) && |m| == |m.Keys|;
    Subset(m.Keys, Ids(size));
  }

  lemma {:induction false} CollectAppend(m: ById, size: int, a: seq<RequestResult>, b: seq<RequestResult>)
    ensures Collect(m, size, a + b) == Collect(Collect(m, size, a), size, b)
    decreases |a|
  {
    if a == [] {
      assert a + b == b;
    } else {
      assert (a + b)[1..] == a[1..] + b;
      CollectAppend(if 0 <= a[0].reqId < size then m[a[0].reqId := a[0]] else m, size, a[1..], b);
    }
  }

  lemma {:induction false} CollectFacts(m: ById, size: int, rs: seq<RequestResult>)
    requires FirstIds(m, size)
    ensures FirstIds(Collect(m, size, rs), size)
    ensures forall i :: i in Collect(m, size, rs) <==>
              i in m || (0 <= i < size && exists k | 0 <= k < |rs| :: rs[k].reqId == i)
    decreases |rs|
  {
    if rs != [] {
      var m' := if 0 <= rs[0].reqId < size then m[rs[0].reqId := rs[0]] else m;
      CollectFacts(m', size, rs[1..]);
      forall i
        ensures i in Collect(m, size, rs) <==> i in m || (0 <= i < size && exists k | 0 <= k < |rs| :: rs[k].reqId == i)
      {
        if k :| 0 <= k < |rs| && rs[k].reqId == i && k > 0 {
          assert rs[1..][k - 1].reqId == i;
        }
        if k :| 0 <= k < |rs[1..]| && rs[1..][k].reqId == i {
          assert rs[k + 1].reqId == i;
        }
      }
    }
  }

  /** What is collected under an id is a result with that id. */
  lemma {:induction false} CollectValues(m: ById, size: int, rs: seq<RequestResult>, i: int)
    requires i in Collect(m, size, rs)
    ensures (i in m && Collect(m, size, rs)[i] == m[i]) ||
            (0 <= i < size && exists k | 0 <= k < |rs| :: rs[k].reqId == i && rs[k] == Collect(m, size, rs)[i])
    decreases |rs|
  {
    if rs != [] {
      var m' := if 0 <= rs[0].reqId < size then m[rs[0].reqId := rs[0]] else m;
      CollectValues(m', size, rs[1..], i);
      var r := Collect(m, size, rs)[i];
      if k :| 0 <= k < |rs[1..]| && rs[1..][k].reqId == i && rs[1..][k] == r {
        assert rs[k + 1].reqId == i && rs[k + 1] == r;
      } else if i in m' && r == m'[i] && r == rs[0] {
        assert rs[0] == r;
      }
    }
  }

  /** Results without any id of the first batch collect nothing. */
  lemma {:induction false} CollectNothing(m: ById, size: int, rs: seq<RequestResult>)
    requires forall k | 0 <= k < |rs| :: !(0 <= rs[k].reqId < size)
    ensures Collect(m, size, rs) == m
    decreases |rs|
  {
    if rs != [] { CollectNothing(m, size, rs[1..]); }
  }

  lemma {:induction false} CheckedReportsNothing(
    size: int, batches: seq<seq<RequestResult>>, states: seq<Checker>, verdicts: seq<Option<string>>)
    requires Run(size, batches, states, verdicts) && (states[0].checked || size <= 0)
    ensures Reports(verdicts) == []
    decreases |batches|
  {
    if batches != [] {
      assert Checks(states[0], size, batches[0], states[1], verdicts[0]);
      RunTail(size, batches, states, verdicts);
      CheckedReportsNothing(size, batches[1..], states[1..], verdicts[1..]);
    }
  }

  lemma RunTail(size: int, batches: seq<seq<RequestResult>>, states: seq<Checker>, verdicts: seq<Option<string>>)
    requires Run(size, batches, states, verdicts) && batches != []
    ensures Run(size, batches[1..], states[1..], verdicts[1..])
  {
    forall i | 0 <= i < |batches| - 1
      ensures Checks(states[1..][i], size, batches[1..][i], states[1..][i + 1], verdicts[1..][i])
    {
      assert Checks(states[i + 1], size, batches[i + 1], states[i + 2], verdicts[i + 1]);
    }
  }

  lemma FreshSplit(m: ById, size: int, a: seq<RequestResult>, b: seq<RequestResult>)
    requires FirstIds(m, size) && Fresh(m, size, a + b)
    ensures Fresh(m, size, a) && Fresh(Collect(m, size, a), size, b)
  {
    var ab := a + b;
    assert forall k | 0 <= k < |a| :: ab[k] == a[k];
    assert forall k | 0 <= k < |b| :: ab[|a| + k] == b[k];
    CollectFacts(m, size, a);
    forall k | 0 <= k < |b| && 0 <= b[k].reqId < size ensures b[k].reqId !in Collect(m, size, a) {
      assert ab[|a| + k].reqId !in m;
      forall j | 0 <= j < |a| ensures a[j].reqId != b[k].reqId {
        assert ab[j].reqId == a[j].reqId && ab[|a| + k].reqId == b[k].reqId;
      }
    }
    forall j, k | 0 <= j < k < |b| && 0 <= b[j].reqId < size ensures b[j].reqId != b[k].reqId {
      assert ab[|a| + j].reqId != ab[|a| + k].reqId;
    }
  }

  /** Exactly one report when the collected batch is complete and condemned, none otherwise. */
  ghost predicate ReportsOnce(m: ById, size: int, reports: seq<string>) {
    if |m| < size then reports == []
    else (reports == [] && Reported(m, None)) || (|reports| == 1 && Reported(m, Some(reports[0])))
  }

  lemma {:induction false} RunReports(
    m: ById, size: nat, batches: seq<seq<RequestResult>>, states: seq<Checker>, verdicts: seq<Option<string>>)
    requires size > 0 && FirstIds(m, size) && |m| < size && Fresh(m, size, Flatten(batches))
    requires Run(size, batches, states, verdicts) && states[0] == Checker(m, false)
    ensures ReportsOnce(Collect(m, size, Flatten(batches)), size, Reports(verdicts))
    decreases |batches|
  {
    hide Collect, Fresh, Reported, FirstIds;
    if batches == [] {
      CollectNothing(m, size, []);
    } else {
      var first, rest := batches[0], Flatten(batches[1..]);
      var m' := Collect(m, size, first);
      assert Checks(states[0], size, first, states[1], verdicts[0]);
      RunTail(size, batches, states, verdicts);
      CollectAppend(m, size, first, rest);
      FreshSplit(m, size, first, rest);
      CollectFacts(m, size, first);
      FirstIdsCount(m', size);
      hide Run;
      if |m'| < size {
        RunReports(m', size, batches[1..], states[1..], verdicts[1..]);
      } else {
        NothingLeft(m', size, rest);
        CheckedReportsNothing(size, batches[1..], states[1..], verdicts[1..]);
      }
    }
  }

  lemma NothingLeft(m: ById, size: nat, rest: seq<RequestResult>)
    requires FirstIds(m, size) && |m| == size && Fresh(m, size, rest)
    ensures Collect(m, size, rest) == m
  {
    FirstIdsCount(m, size);
    assert forall i :: 0 <= i < size <==> i in m.Keys;
    CollectNothing(m, size, rest);
  }

  /**
   * Over any batching in which no first-batch id comes twice, the checker reports at most once, and it reports
   * exactly when all first-batch requests have come, all failed, and their non-empty errors form a singleton.
   */
  lemma AbortVerdict(size: nat, batches: seq<seq<RequestResult>>, states: seq<Checker>, verdicts: seq<Option<string>>)
    requires size > 0 && Fresh(map[], size, Flatten(batches))
    requires Run(size, batches, states, verdicts) && states[0] == Checker(map[], false)
    ensures ReportsOnce(Collect(map[], size, Flatten(batches)), size, Reports(verdicts))
  {
    RunReports(map[], size, batches, states, verdicts);
  }

  // ----- Order does not matter

  lemma {:induction false} CollectedValue(m: ById, size: int, rs: seq<RequestResult>, k: nat)
    requires k < |rs| && 0 <= rs[k].reqId < size && Fresh(m, size, rs)
    ensures rs[k].reqId in Collect(m, size, rs) && Collect(m, size, rs)[rs[k].reqId] == rs[k]
    decreases |rs|
  {
    var m' := if 0 <= rs[0].reqId < size then m[rs[0].reqId := rs[0]] else m;
    forall j | 0 <= j < |rs[1..]| && 0 <= rs[1..][j].reqId < size ensures rs[1..][j].reqId !in m' {
      assert rs[1..][j] == rs[j + 1];
    }
    forall i, j | 0 <= i < j < |rs[1..]| && 0 <= rs[1..][i].reqId < size ensures rs[1..][i].reqId != rs[1..][j].reqId {
      assert rs[i + 1].reqId != rs[j + 1].reqId;
    }
    if k == 0 {
      CollectKeeps(m', size, rs[1..], rs[0].reqId);
    } else {
      CollectedValue(m', size, rs[1..], k - 1);
    }
  }

  lemma {:induction false} CollectKeeps(m: ById, size: int, rs: seq<RequestResult>, id: int)
    requires id in m && forall k | 0 <= k < |rs| :: rs[k].reqId != id
    ensures id in Collect(m, size, rs) && Collect(m, size, rs)[id] == m[id]
    decreases |rs|
  {
    if rs != [] {
      CollectKeeps(if 0 <= rs[0].reqId < size then m[rs[0].reqId := rs[0]] else m, size, rs[1..], id);
    }
  }

  /** What is collected depends on which results came, not on their order. */
  lemma CollectOrderIndependent(size: nat, a: seq<RequestResult>, b: seq<RequestResult>)
    requires multiset(a) == multiset(b) && Fresh(map[], size, a) && Fresh(map[], size, b)
    ensures Collect(map[], size, a) == Collect(map[], size, b)
  {
    var ma, mb := Collect(map[], size, a), Collect(map[], size, b);
    CollectFacts(map[], size, a);
    CollectFacts(map[], size, b);
    forall i | i in ma ensures i in mb && mb[i] == ma[i] {
      Transfer(size, a, b, i);
    }
    forall i | i in mb ensures i in ma {
      Transfer(size, b, a, i);
    }
  }

  lemma Transfer(size: nat, a: seq<RequestResult>, b: seq<RequestResult>, i: int)
    requires multiset(a) == multiset(b) && Fresh(map[], size, a) && Fresh(map[], size, b)
    requires i in Collect(map[], size, a)
    ensures i in Collect(map[], size, b) && Collect(map[], size, b)[i] == Collect(map[], size, a)[i]
  {
    CollectFacts(map[], size, a);
    var k :| 0 <= k < |a| && a[k].reqId == i;
    CollectedValue(map[], size, a, k);
    assert a[k] in multiset(a);
    assert a[k] in multiset(b);
    var l :| 0 <= l < |b| && b[l] == a[k];
    CollectedValue(map[], size, b, l);
  }

  /** Any arrival order and any batching of the same results lead to the same reports. */
  lemma AbortVerdictOrderIndependent(
    size: nat,
    batches1: seq<seq<RequestResult>>, states1: seq<Checker>, verdicts1: seq<Option<string>>,
    batches2: seq<seq<RequestResult>>, states2: seq<Checker>, verdicts2: seq<Option<string>>)
    requires size > 0 && multiset(Flatten(batches1)) == multiset(Flatten(batches2))
    requires Fresh(map[], size, Flatten(batches1)) && Fresh(map[], size, Flatten(batches2))
    requires Run(size, batches1, states1, verdicts1) && states1[0] == Checker(map[], false)
    requires Run(size, batches2, states2, verdicts2) && states2[0] == Checker(map[], false)
    ensures Reports(verdicts1) == Reports(verdicts2)
  {
    AbortVerdict(size, batches1, states1, verdicts1);
    AbortVerdict(size, batches2, states2, verdicts2);
    CollectOrderIndependent(size, Flatten(batches1), Flatten(batches2));
    hide Run, Fresh, Collect, Flatten;
    ReportsDetermined(Collect(map[], size, Flatten(batches1)), size, Reports(verdicts1), Reports(verdicts2));
  }

  lemma ReportsDetermined(m: ById, size: nat, r1: seq<string>, r2: seq<string>)
    requires ReportsOnce(m, size, r1) && ReportsOnce(m, size, r2)
    ensures r1 == r2
  {
    if r1 != [] && r2 != [] {
      assert r1[0] in Errors(m) && r2[0] in Errors(m);
    }
  }
}
