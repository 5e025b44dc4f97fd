/** One load run: tasks are created one by one and complete in any order, until all are done or the run is aborted. */
module LoadEngines {
  import opened PatchAlgebra
  import opened Load

  /** What a task comes to; the drain phase turns exceptions of some kinds into failures, others escape. */
  datatype Outcome = Returned(result: RequestResult) | Caught(error: string, latency: real) | Uncaught

  function FirstBatch(total: nat): nat { if total < 5 then total else 5 }

  datatype RunEnd = Completed | Aborted(error: string) | Crashed

  /** Each task number once. */
  ghost predicate Distinct(order: seq<nat>) {
    forall i, j | 0 <= i < j < |order| :: order[i] != order[j]
  }

  /** The result a task is accounted with; an exception met while draining has request id -1. */
  function Accounted(o: Outcome): RequestResult
    requires !o.Uncaught?
  {
    match o
    case Returned(r) => r
    case Caught(error, latency) => RequestResult(-1, false, 0, error, latency)
  }

  function ReportOf(e: RunEnd): seq<string> {
    if e.Aborted? then [e.error] else []
  }

  ghost predicate Accounts(order: seq<nat>, outcome: nat -> Outcome, processed: seq<RequestResult>) {
    |processed| == |order| &&
    forall k | 0 <= k < |order| :: !outcome(order[k]).Uncaught? && processed[k] == Accounted(outcome(order[k]))
  }

  /** The tasks `0..created`, split into those processed, in this order, and those pending. */
  ghost predicate Partition(order: seq<nat>, pending: set<nat>, created: nat) {
    && Distinct(order)
    && (forall t :: t in order ==> t !in pending)
    && (forall t: nat :: t < created <==> t in order || t in pending)
  }

  lemma ProcessOne(order: seq<nat>, pending: set<nat>, created: nat, t: nat)
    requires Partition(order, pending, created) && t in pending
    ensures Partition(order + [t], pending - {t}, created)
  {
  }

  lemma CreateOne(order: seq<nat>, pending: set<nat>, created: nat)
    requires Partition(order, pending, created)
    ensures Partition(order, pending + {created}, created + 1)
  {
  }

  /** Distinct numbers covering exactly `0..n` are `n` in number. */
  lemma {:induction false} DistinctCount(order: seq<nat>, n: nat)
    requires Distinct(order) && forall t: nat :: t < n <==> t in order
    ensures |order| == n
  {
    var s := Members(order);
    assert s == Ids(n);
  }

  ghost function Members(order: seq<nat>): (s: set<int>)
    requires Distinct(order)
    ensures |s| == |order| && forall t: int :: t in s <==> t >= 0 && t in order
  {
    if order == [] then {}
    else
      var rest := order[..|order| - 1];
      assert order == rest + [order[|order| - 1]];
      Members(rest) + {order[|order| - 1] as int}
  }

  lemma OneMoreResult(rs: seq<RequestResult>, r: RequestResult)
    ensures Last(Last(rs, KEPT_RESULTS) + [r], KEPT_RESULTS) == Last(rs + [r], KEPT_RESULTS)
    ensures Successes(rs + [r]) == Successes(rs) + if r.success then 1 else 0
    ensures Tokens(rs + [r]) == Tokens(rs) + if r.success then r.outputTokens else 0
  {
    LastOfLast(rs, r, KEPT_RESULTS);
    assert (rs + [r])[..|rs|] == rs;
  }

  /** Every request reports under its own number. */
  ghost predicate OwnIds(outcome: nat -> Outcome) {
    forall t: nat | outcome(t).Returned? :: outcome(t).result.reqId == t
  }

  /** All of the first `size` requests have come and failed, with one common error. */
  ghost predicate FirstBatchFailed(processed: seq<RequestResult>, size: nat, error: string) {
    var m := Collect(map[], size, processed);
    |m| == size && Condemned(m, error)
  }

  predicate Succeeds(o: Outcome) {
    o.Returned? && o.result.success
  }

  function Succeeding(order: seq<nat>, outcome: nat -> Outcome): set<nat> {
    set t | t in order && Succeeds(outcome(t))
  }

  lemma SucceedingOneMore(order: seq<nat>, outcome: nat -> Outcome, t: nat)
    requires t !in order
    ensures |Succeeding(order + [t], outcome)| == |Succeeding(order, outcome)| + if Succeeds(outcome(t)) then 1 else 0
  {
    var before := Succeeding(order, outcome);
    assert t !in before;
    assert Succeeding(order + [t], outcome) == if Succeeds(outcome(t)) then before + {t} else before;
  }

  /** The successes counted are the tasks that came back with one. */
  lemma {:induction false} SuccessesAreReturned(
    order: seq<nat>, outcome: nat -> Outcome, processed: seq<RequestResult>)
    requires Distinct(order) && Accounts(order, outcome, processed)
    ensures Successes(processed) == |Succeeding(order, outcome)|
    decreases |order|
  {
    if order == [] {
      assert Succeeding(order, outcome) == {};
    } else {
      var n := |order| - 1;
      SuccessesAreReturned(order[..n], outcome, processed[..n]);
      assert order == order[..n] + [order[n]] && order[n] !in order[..n];
      assert processed[n] == Accounted(outcome(order[n]));
      hide Distinct, Accounts, Succeeding;
      SucceedingOneMore(order[..n], outcome, order[n]);
    }
  }

  /** Each of the first `size` requests comes back as a failure, and the errors they tell are this one. */
  ghost predicate FailsAtOnce(outcome: nat -> Outcome, size: nat, error: string) {
    && error != ""
    && (forall t: nat | t < size ::
          outcome(t).Returned? && !outcome(t).result.success && outcome(t).result.error in {"", error})
    && exists t: nat | t < size :: outcome(t).Returned? && outcome(t).result.error == error
  }

  lemma {:induction false} CondemnedFailsAtOnce(m: ById, outcome: nat -> Outcome, size: nat, error: string)
    requires (forall t: nat :: t < size <==> t in m) && forall t: nat | t in m :: outcome(t) == Returned(m[t])
    requires Condemned(m, error) && m.Keys == Ids(size)
    ensures FailsAtOnce(outcome, size, error)
  {
    assert error in Errors(m);
    var i :| i in m && !m[i].success && m[i].error == error && error != "";
    assert outcome(i).Returned? && outcome(i).result.error == error;
    forall t: nat | t < size
      ensures outcome(t).Returned? && !outcome(t).result.success && outcome(t).result.error in {"", error}
    {
      assert m[t].error != "" ==> m[t].error in Errors(m);
    }
  }

  lemma {:induction false} CondemnedAtOnce(m: ById, outcome: nat -> Outcome, size: nat, error: string)
    requires m.Keys == Ids(size) && forall t: nat | t in m :: outcome(t) == Returned(m[t])
    ensures Condemned(m, error) <==> FailsAtOnce(outcome, size, error)
  {
    if Condemned(m, error) {
      hide Condemned, FailsAtOnce;
      CondemnedFailsAtOnce(m, outcome, size, error);
    }
    if FailsAtOnce(outcome, size, error) {
      var t: nat :| t < size && outcome(t).Returned? && outcome(t).result.error == error;
      assert t in m && !m[t].success && m[t].error == error;
      assert error in Errors(m);
    }
  }

  /** The first batch failed exactly when it has been processed and fails at once. */
  lemma {:induction false} FirstBatchFailedExactly(
    order: seq<nat>, outcome: nat -> Outcome, processed: seq<RequestResult>, size: nat, error: string)
    requires Distinct(order) && Accounts(order, outcome, processed) && OwnIds(outcome)
    ensures FirstBatchFailed(processed, size, error) <==>
            (forall t: nat | t < size :: t in order) && FailsAtOnce(outcome, size, error)
  {
    var m := Collect(map[], size, processed);
    hide Condemned, FailsAtOnce, Accounts, OwnIds, Distinct, Collect;
    CollectFacts(map[], size, processed);
    FirstIdsCount(m, size);
    forall t: nat | t in m ensures t in order && outcome(t) == Returned(m[t]) {
      CollectedIsReturned(order, outcome, processed, size, t);
    }
    if (forall t: nat | t < size :: t in order) && FailsAtOnce(outcome, size, error) {
      forall t | t in Ids(size) ensures t in m {
        ReturnedAtOnce(outcome, size, error, t);
        ReturnedIsCollected(order, outcome, processed, size, t);
      }
      assert m.Keys == Ids(size);
    }
    if m.Keys == Ids(size) {
      CondemnedAtOnce(m, outcome, size, error);
      forall t: nat | t < size ensures t in order { assert t in m; }
    }
  }

  lemma ReturnedAtOnce(outcome: nat -> Outcome, size: nat, error: string, t: nat)
    requires FailsAtOnce(outcome, size, error) && t < size
    ensures outcome(t).Returned?
  {
  }

  lemma ReturnedIsCollected(
    order: seq<nat>, outcome: nat -> Outcome, processed: seq<RequestResult>, size: nat, t: nat)
    requires Accounts(order, outcome, processed) && OwnIds(outcome) && t in order && t < size && outcome(t).Returned?
    ensures t in Collect(map[], size, processed)
  {
    hide Collect;
    CollectFacts(map[], size, processed);
    var k :| 0 <= k < |order| && order[k] == t;
    assert processed[k] == Accounted(outcome(order[k]));
  }

  lemma CollectedIsReturned(
    order: seq<nat>, outcome: nat -> Outcome, processed: seq<RequestResult>, size: nat, t: nat)
    requires Accounts(order, outcome, processed) && OwnIds(outcome) && t in Collect(map[], size, processed)
    ensures t in order && outcome(t) == Returned(Collect(map[], size, processed)[t])
  {
    CollectValues(map[], size, processed, t);
    hide Collect;
    var r := Collect(map[], size, processed)[t];
    var k :| 0 <= k < |processed| && processed[k].reqId == t && processed[k] == r;
    assert processed[k] == Accounted(outcome(order[k]));
  }

  lemma ProcessedIsFresh(order: seq<nat>, outcome: nat -> Outcome, processed: seq<RequestResult>, size: nat)
    requires Distinct(order) && Accounts(order, outcome, processed) && OwnIds(outcome)
    ensures Fresh(map[], size, processed)
  {
    forall k | 0 <= k < |processed| ensures processed[k].reqId == -1 || processed[k].reqId == order[k] {
      assert processed[k] == Accounted(outcome(order[k]));
    }
    assert forall j, k | 0 <= j < k < |processed| :: order[j] != order[k];
  }

  /** What the checker reported decides how the first batch ended. */
  lemma VerdictTells(
    order: seq<nat>, outcome: nat -> Outcome, processed: seq<RequestResult>, size: nat,
    batches: seq<seq<RequestResult>>, states: seq<Checker>, verdicts: seq<Option<string>>)
    requires Distinct(order) && Accounts(order, outcome, processed) && OwnIds(outcome)
    requires Run(size, batches, states, verdicts) && states[0] == Checker(map[], false) && Flatten(batches) == processed
    ensures Reports(verdicts) == [] ==> forall e :: !FirstBatchFailed(processed, size, e)
    ensures Reports(verdicts) != [] ==> FirstBatchFailed(processed, size, Reports(verdicts)[0])
  {
    ProcessedIsFresh(order, outcome, processed, size);
    hide Accounts, Distinct, OwnIds;
    if size == 0 {
      CheckedReportsNothing(size, batches, states, verdicts);
      CollectFacts(map[], size, processed);
    } else {
      AbortVerdict(size, batches, states, verdicts);
      hide Run, Fresh, Flatten;
      CollectFacts(map[], size, processed);
      FirstIdsCount(Collect(map[], size, processed), size);
    }
  }

  class LoadTestEngine {
    var results: seq<RequestResult>
    var completed: nat
    var failed: nat
    var tokens: nat
    /** Every result processed, the dropped ones included, and the tasks they came from. */
    ghost var processed: seq<RequestResult>
    ghost var order: seq<nat>

    constructor ()
      ensures Valid() && processed == [] && order == []
    {
      results, completed, failed, tokens, processed, order := [], 0, 0, 0, [], [];
    }

    /** The counters add up over all processed results; the kept ones are the last thousand. */
    ghost predicate Valid()
      reads this
    {
      && results == Last(processed, KEPT_RESULTS)
      && completed == Successes(processed) && completed + failed == |processed|
      && tokens == Tokens(processed)
    }

    method Process(r: RequestResult)
      requires Valid()
      modifies this`results, this`completed, this`failed, this`tokens, this`processed
      ensures Valid() && processed == old(processed) + [r]
    {
      OneMoreResult(processed, r);
      hide Successes, Tokens;
      results := results + [r];
      if |results| > KEPT_RESULTS { results := results[|results| - KEPT_RESULTS..]; }
      if r.success {
        completed, tokens := completed + 1, tokens + r.outputTokens;
      } else {
        failed := failed + 1;
      }
      processed := processed + [r];
    }

    /** The checker has been given every processed result, in order. */
    ghost predicate AllGiven(checker: FailureChecker)
      reads this, checker
    {
      checker.Valid() && Flatten(checker.batches) == processed
    }

    /** Processes some of the pending tasks, whichever are done; an exception of a task escapes. */
    method ProcessCompleted(pending: set<nat>, outcome: nat -> Outcome, ghost created: nat)
      returns (rest: set<nat>, batch: seq<RequestResult>, raised: bool)
      requires Valid() && Partition(order, pending, created) && Accounts(order, outcome, processed)
      modifies this`results, this`completed, this`failed, this`tokens, this`processed, this`order
      ensures Valid() && Partition(order, rest, created) && Accounts(order, outcome, processed)
      ensures processed == old(processed) + batch
      ensures raised ==> exists t | t in rest :: !outcome(t).Returned?
    {
      hide Partition, Distinct;
      rest, batch, raised := pending, [], false;
      while rest != {}
        invariant Valid() && Partition(order, rest, created) && Accounts(order, outcome, processed)
        invariant processed == old(processed) + batch && !raised
        decreases rest
      {
        var more: bool := *;
        if !more { break; }
        var t :| t in rest;
        if !outcome(t).Returned? {
          raised := true;
          return;
        }
        ProcessOne(order, rest, created, t);
        Process(outcome(t).result);
        order, rest, batch := order + [t], rest - {t}, batch + [outcome(t).result];
      }
    }

    /** Waits for all remaining tasks, one at a time in completion order. */
    method Drain(pending: set<nat>, outcome: nat -> Outcome, checker: FailureChecker, ghost created: nat)
      returns (ended: RunEnd, rest: set<nat>)
      requires Valid() && Partition(order, pending, created) && Accounts(order, outcome, processed)
      requires AllGiven(checker) && Reports(checker.verdicts) == []
      modifies this`results, this`completed, this`failed, this`tokens, this`processed, this`order, checker
      ensures Valid() && Partition(order, rest, created) && Accounts(order, outcome, processed)
      ensures AllGiven(checker) && Reports(checker.verdicts) == ReportOf(ended)
      ensures ended.Completed? ==> rest == {}
      ensures ended.Crashed? ==> exists t | t in rest :: outcome(t).Uncaught?
    {
      hide Partition, Distinct, Reports, Flatten, Last, Successes, Tokens, Run;
      rest := pending;
      while rest != {}
        invariant Valid() && Partition(order, rest, created) && Accounts(order, outcome, processed)
        invariant AllGiven(checker) && Reports(checker.verdicts) == []
        decreases rest
      {
        var t :| t in rest;
        if outcome(t).Uncaught? { return Crashed, rest; }
        var r := Accounted(outcome(t));
        ProcessOne(order, rest, created, t);
        Process(r);
        order, rest := order + [t], rest - {t};
        FlattenOneMore(checker.batches, [r]);
        var verdict := checker.Check([r]);
        if verdict.Some? { return Aborted(verdict.value), rest; }
      }
      ended := Completed;
    }

    /**
     * A run of up to `total` requests; `stops(i)` tells whether it has been stopped when request `i` is due. Unless
     * it is aborted or crashes, all requests due are created, every created task is processed exactly once, and the
     * counters account for each of them.
     */
    method ExecuteRequests(total: nat, outcome: nat -> Outcome, stops: nat -> bool, checker: FailureChecker)
      returns (ended: RunEnd, created: nat)
      requires Valid() && processed == [] && order == []
      requires checker.Valid() && checker.batches == []
      modifies this, checker
      ensures Valid() && created <= total && Distinct(order) && Accounts(order, outcome, processed)
      ensures forall t | t in order :: t < created
      ensures ended.Completed? ==>
                && (forall t: nat :: t < created <==> t in order)
                && completed + failed == created && |order| == created
      ensures !ended.Crashed? ==> AllGiven(checker) && Reports(checker.verdicts) == ReportOf(ended)
      ensures forall i | 0 <= i < created :: !stops(i)
      ensures ended.Completed? ==> created == total || stops(created)
      ensures ended.Crashed? ==> exists t: nat | t < created :: !outcome(t).Returned?
    {
      created := 0;
      var pending: set<nat> := {};
      ended := Completed;
      assert Partition(order, pending, created);
      assert Accounts(order, outcome, processed);
      assert AllGiven(checker) && Reports(checker.verdicts) == [];
      hide Partition, Accounts, Reports, Flatten, Last, Successes, Tokens, Run, Distinct;
      while created < total
        invariant Valid() && created <= total && ended.Completed?
        invariant Partition(order, pending, created) && Accounts(order, outcome, processed)
        invariant AllGiven(checker) && Reports(checker.verdicts) == []
        invariant forall i | 0 <= i < created :: !stops(i)
      {
        if stops(created) { break; }
        CreateOne(order, pending, created);
        pending, created := pending + {created}, created + 1;
        var batch, raised;
        pending, batch, raised := ProcessCompleted(pending, outcome, created);
        if raised {
          ended := Crashed;
          break;
        }
        FlattenOneMore(checker.batches, batch);
        var verdict := checker.Check(batch);
        if verdict.Some? {
          ended := Aborted(verdict.value);
          break;
        }
      }
      if ended.Completed? {
        ended, pending := Drain(pending, outcome, checker, created);
      }
      Closing(order, pending, created);
    }

    /**
     * A whole run with its checker on the first five requests: it is aborted exactly when all of these fail with one
     * common error, and the requests counted as completed are those that came back with success.
     */
    method RunLoad(total: nat, outcome: nat -> Outcome, stops: nat -> bool) returns (ended: RunEnd, created: nat)
      requires Valid() && processed == [] && order == [] && OwnIds(outcome)
      modifies this
      ensures Valid() && created <= total
      ensures ended.Completed? ==> completed + failed == created && (created == total || stops(created))
      ensures ended.Crashed? ==> exists t: nat | t < created :: !outcome(t).Returned?
      ensures ended.Completed? ==> forall e :: !FirstBatchFailed(processed, FirstBatch(total), e)
      ensures ended.Aborted? ==> FirstBatchFailed(processed, FirstBatch(total), ended.error)
      ensures ended.Aborted? ==> FailsAtOnce(outcome, if total < 5 then total else 5, ended.error)
      ensures ended.Completed? && (created >= 5 || created == total) ==>
                var first := if total < 5 then total else 5; forall e :: !FailsAtOnce(outcome, first, e)
      ensures ended.Completed? ==>
                completed == |set t: nat | t < created && Succeeds(outcome(t))|
    {
      var checker := new FailureChecker(FirstBatch(total));
      ended, created := ExecuteRequests(total, outcome, stops, checker);
      if !ended.Crashed? {
        VerdictTells(order, outcome, processed, FirstBatch(total), checker.batches, checker.states, checker.verdicts);
        forall e ensures FirstBatchFailed(processed, FirstBatch(total), e) <==>
                         && (forall t: nat | t < FirstBatch(total) :: t in order)
                         && FailsAtOnce(outcome, FirstBatch(total), e)
        {
          FirstBatchFailedExactly(order, outcome, processed, FirstBatch(total), e);
        }
        SuccessesAreReturned(order, outcome, processed);
        assert ended.Completed? ==>
            Succeeding(order, outcome) == set t: nat | t < created && Succeeds(outcome(t));
        hide Accounts, Distinct, OwnIds, FirstBatchFailed, FailsAtOnce;
      }
    }
  }

  lemma Closing(order: seq<nat>, pending: set<nat>, created: nat)
    requires Partition(order, pending, created)
    ensures Distinct(order) && (forall t | t in order :: t < created)
    ensures pending == {} ==> |order| == created && forall t: nat :: t < created <==> t in order
  {
    if pending == {} { DistinctCount(order, created); }
  }
}
