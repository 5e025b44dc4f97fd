/** An unreliable API server holding one custom resource, and the operator that deletes and recreates it. */
module Cluster {
  import opened JsonValues
  import opened PatchAlgebra
  import opened Args
  import opened Words
  import opened Adapters
  import opened CustomResources
  import opened Trials

  datatype CrState = Absent | Present(body: Json) | Deleting(body: Json)

  /** `Refused` is an API error with a status, 403 or another; `Broken` is any other exception of the client. */
  datatype Reply = Done(body: Json) | NotFound | Refused(forbidden: bool) | Broken

  /** A request to the server, with what the caller got to know of it. */
  datatype Request = Got(reply: Reply) | Deleted(reply: Reply) | Created(body: Json, reply: Reply)

  function Clean(s: CrState): Option<Json> {
    if s.Absent? then None else Some(CleanForCreate(s.body))
  }

  /** Nobody asked for anything: only server-managed fields change, and a deletion may complete. */
  predicate Drifts(a: CrState, b: CrState) {
    || (a.Deleting? && b.Absent?)
    || (Clean(a) == Clean(b) && (a.Present? <==> b.Present?) && (a.Absent? <==> b.Absent?))
  }

  /** A deletion has been accepted. */
  predicate Removed(a: CrState, b: CrState) {
    b.Absent? || (b.Deleting? && Clean(a) == Clean(b))
  }

  predicate Readable(kind: CrKind, s: CrState) {
    s.Absent? || WellShaped(kind, s.body)
  }

  class ApiServer {
    const kind: CrKind
    var state: CrState
    /** The number of creates that took effect, acknowledged or not. */
    ghost var creates: nat
    /** All requests ever made, in order. */
    ghost var requests: seq<Request>

    ghost predicate Valid()
      reads this
    {
      Readable(kind, state)
    }

    ghost function Held(): Option<Json>
      reads this
    {
      Clean(state)
    }

    method Drift()
      requires Valid()
      modifies this`state
      ensures Valid() && Drifts(old(state), state)
    {
      var body: Json, gone: bool := *, *;
      if state.Deleting? && gone {
        state := Absent;
      } else if !state.Absent? && body.Obj? && CleanForCreate(body) == CleanForCreate(state.body) {
        CleanDetermines(kind, state.body, body, []);
        state := if state.Present? then Present(body) else Deleting(body);
      }
    }

    method Get() returns (r: Reply)
      requires Valid()
      modifies this`state, this`requests
      ensures Valid() && Drifts(old(state), state) && requests == old(requests) + [Got(r)]
      ensures r.Done? ==> !state.Absent? && state.body == r.body
      ensures r.NotFound? ==> state.Absent?
    {
      Drift();
      var fails, broken, forbidden: bool := *, *, *;
      r := if fails then (if broken then Broken else Refused(forbidden))
           else if state.Absent? then NotFound else Done(state.body);
      requests := requests + [Got(r)];
    }

    /** The reply may be lost after the deletion was accepted. */
    method Delete() returns (r: Reply)
      requires Valid()
      modifies this`state, this`requests
      ensures Valid() && requests == old(requests) + [Deleted(r)]
      ensures r.Done? ==> r == Done(Null) && Removed(old(state), state) && !old(state).Absent?
      ensures !r.Done? ==> Drifts(old(state), state) || Removed(old(state), state)
    {
      Drift();
      var fails, broken, forbidden, lost, slow: bool := *, *, *, *, *;
      if state.Absent? {
        r := if !fails then NotFound else if broken then Broken else Refused(forbidden);
      } else {
        r := if !fails then Done(Null) else if broken then Broken else Refused(forbidden);
        if !fails || lost {
          state := if slow then Deleting(state.body) else Absent;
        }
      }
      requests := requests + [Deleted(r)];
    }

    /** Accepted only when nothing of that name is left; the reply may be lost after the create took effect. */
    method Create(body: Json) returns (r: Reply)
      requires Valid() && WellShaped(kind, body)
      modifies this
      ensures Valid() && creates >= old(creates) && requests == old(requests) + [Created(body, r)]
      ensures r.Done? ==> r == Done(Null) && creates > old(creates)
      ensures creates > old(creates) ==> state.Present? && Held() == Some(CleanForCreate(body)) && !old(state).Present?
      ensures creates == old(creates) ==> Drifts(old(state), state)
    {
      Drift();
      var fails, broken, forbidden, lost: bool, stored: Json := *, *, *, *, *;
      if !state.Absent? {
        r := Refused(forbidden);
      } else {
        r := if !fails then Done(Null) else if broken then Broken else Refused(forbidden);
        if !fails || lost {
          if !(stored.Obj? && CleanForCreate(stored) == CleanForCreate(body)) { stored := body; }
          CleanDetermines(kind, body, stored, []);
          state := Present(stored);
          creates := creates + 1;
        }
      }
      requests := requests + [Created(body, r)];
    }

    constructor (kind: CrKind, state: CrState)
      requires Readable(kind, state)
      ensures Valid() && this.kind == kind && this.state == state
    {
      this.kind, this.state, this.creates, this.requests := kind, state, 0, [];
    }
  }

  // ----- Parameters as arguments

  function DigitText(d: nat): string
    requires d < 10
  {
    [('0' as int + d) as char]
  }

  function NatText(n: nat): string {
    if n < 10 then DigitText(n) else NatText(n / 10) + DigitText(n % 10)
  }

  function IntText(n: int): string {
    if n < 0 then "-" + NatText(-n) else NatText(n)
  }

  lemma {:induction false} NatTextIsWord(n: nat)
    ensures Word(NatText(n))
    decreases n
  {
    if n >= 10 {
      NatTextIsWord(n / 10);
      var t := NatText(n);
      assert forall c | c in t :: c in NatText(n / 10) || c in DigitText(n % 10);
    }
  }

  lemma IntTextIsWord(n: int)
    ensures Word(IntText(n))
  {
    NatTextIsWord(if n < 0 then -n else n);
    if n < 0 {
      assert forall c | c in IntText(n) :: c == '-' || c in NatText(-n);
    }
  }

  /** The number that digits denote. */
  function DigitsValue(t: string): int {
    if t == "" then 0 else 10 * DigitsValue(t[..|t| - 1]) + (t[|t| - 1] as int - '0' as int)
  }

  /** The number that a decimal text denotes: what `int(t)` makes of it. */
  function IntValue(t: string): int {
    if t != "" && t[0] == '-' then -DigitsValue(t[1..]) else DigitsValue(t)
  }

  lemma {:induction false} NatTextReads(n: nat)
    ensures DigitsValue(NatText(n)) == n && NatText(n) != "" && NatText(n)[0] != '-'
    decreases n
  {
    var t := NatText(n);
    if n < 10 {
      assert t == DigitText(n) && t[..0] == "";
    } else {
      NatTextReads(n / 10);
      assert t[..|t| - 1] == NatText(n / 10) && t[|t| - 1] == DigitText(n % 10)[0];
    }
  }

  lemma IntTextReads(n: int)
    ensures IntValue(IntText(n)) == n
  {
    NatTextReads(if n < 0 then -n else n);
    if n < 0 { assert IntText(n)[1..] == NatText(-n); }
  }

  /** `params_to_args`, read back as the adapters read a command line. */
  function ParamsEntries(p: Params, realText: real -> string): seq<Entry> {
    [Entry(MaxNumSeqs, IntText(p.maxNumSeqs)), Entry(GpuMemoryUtilization, realText(p.gpuUtil)),
     Entry(MaxModelLen, IntText(p.maxModelLen)), Entry(MaxNumBatchedTokens, IntText(p.maxNumBatchedTokens))]
  }

  lemma {:induction false} ParamsEntriesFacts(p: Params, realText: real -> string, kind: CrKind)
    requires Word(realText(p.gpuUtil))
    ensures Parse(Print(ParamsEntries(p, realText))) == ParamsEntries(p, realText)
    ensures Fits(kind, ParamsEntries(p, realText))
    ensures forall e | e in ParamsEntries(p, realText) :: Printable(e)
  {
    IntTextIsWord(p.maxNumSeqs);
    IntTextIsWord(p.maxModelLen);
    IntTextIsWord(p.maxNumBatchedTokens);
    hide IntText, Parse, Print, Fits, Word, Printable;
    FourEntries(
      IntText(p.maxNumSeqs), realText(p.gpuUtil), IntText(p.maxModelLen), IntText(p.maxNumBatchedTokens), kind);
  }

  lemma FourUnique(c: seq<Entry>)
    requires |c| == 4 && c[0].key == MaxNumSeqs && c[1].key == GpuMemoryUtilization
    requires c[2].key == MaxModelLen && c[3].key == MaxNumBatchedTokens
    ensures UniqueKeys(c)
  {
    assert UniqueKeys([]);
    hide UniqueKeys;
    UniqueCons(c[3], []);
    UniqueCons(c[2], [c[3]] + []);
    UniqueCons(c[1], [c[2]] + ([c[3]] + []));
    UniqueCons(c[0], [c[1]] + ([c[2]] + ([c[3]] + [])));
    assert c == [c[0]] + ([c[1]] + ([c[2]] + ([c[3]] + [])));
  }

  lemma {:induction false} FourEntries(seqs: string, util: string, len: string, tokens: string, kind: CrKind)
    requires Word(seqs) && Word(util) && Word(len) && Word(tokens)
    ensures var c := [Entry(MaxNumSeqs, seqs), Entry(GpuMemoryUtilization, util), Entry(MaxModelLen, len),
                      Entry(MaxNumBatchedTokens, tokens)];
            Parse(Print(c)) == c && Fits(kind, c) && forall e | e in c :: Printable(e)
  {
    var c := [Entry(MaxNumSeqs, seqs), Entry(GpuMemoryUtilization, util), Entry(MaxModelLen, len),
              Entry(MaxNumBatchedTokens, tokens)];
    hide Print, ParseFrom, Updated, Shown;
    FourUnique(c);
    assert forall e | e in c :: Word(e.value);
    hide UniqueKeys, Word;
    ShownOfPrintable(c);
    PrintedLine(c, []);
    assert [] + c == c;
    UpdatedAppends([], c);
  }

  /** The key has a value, and that denotes `n`. */
  predicate Reads(c: seq<Entry>, k: Key, n: int) {
    Lookup(c, k).Some? && IntValue(Lookup(c, k).value) == n
  }

  /** A configuration that says these parameters. */
  predicate Denotes(c: seq<Entry>, p: Params, realText: real -> string) {
    && Reads(c, MaxNumSeqs, p.maxNumSeqs) && Reads(c, MaxModelLen, p.maxModelLen)
    && Reads(c, MaxNumBatchedTokens, p.maxNumBatchedTokens)
    && Lookup(c, GpuMemoryUtilization) == Some(realText(p.gpuUtil))
  }

  lemma ParamsEntriesDenote(p: Params, realText: real -> string)
    ensures Denotes(ParamsEntries(p, realText), p, realText)
  {
    IntTextReads(p.maxNumSeqs);
    IntTextReads(p.maxModelLen);
    IntTextReads(p.maxNumBatchedTokens);
    hide IntValue, IntText, UniqueKeys, Lookup;
    var c := ParamsEntries(p, realText);
    FourUnique(c);
    LookupMember(c, c[0]);
    LookupMember(c, c[1]);
    LookupMember(c, c[2]);
    LookupMember(c, c[3]);
  }

  /** The arguments of the resource say these parameters. */
  predicate Carries(kind: CrKind, cr: Json, p: Params, realText: real -> string) {
    WellShaped(kind, cr) && Denotes(ReadArgs(kind, cr), p, realText)
  }

  /** A resource with parameters applied says exactly these. */
  lemma {:induction false} AppliedCarries(kind: CrKind, cr: Json, p: Params, realText: real -> string)
    requires WellShaped(kind, cr) && Word(realText(p.gpuUtil))
    ensures Carries(kind, Applied(kind, cr, ParamsEntries(p, realText)), p, realText)
  {
    var c := ParamsEntries(p, realText);
    var applied := Applied(kind, cr, c);
    ParamsEntriesFacts(p, realText, kind);
    ParamsEntriesDenote(p, realText);
    hide WellShaped, Applied, ReadArgs, ReadExtraArgs, Updated, Shown, ParamsEntries, Lookup, IntValue, Word, Parse,
         Print;
    ApplyReadsBack(kind, cr, c);
    forall k | Lookup(c, k).Some? ensures Lookup(ReadArgs(kind, applied), k) == Lookup(c, k) {
      LookupFound(c, k);
    }
  }

  // ----- Readiness

  function Lower(c: char): char {
    if 'A' <= c <= 'Z' then (c as int + 32) as char else c
  }

  /** `str(value).lower() == "true"` */
  predicate IsTrue(value: Json) {
    (value.Bool? && value.b) ||
    (value.Str? && |value.s| == 4 &&
     Lower(value.s[0]) == 't' && Lower(value.s[1]) == 'r' && Lower(value.s[2]) == 'u' && Lower(value.s[3]) == 'e')
  }

  /** Boolean true, or the word in any case of letters. */
  lemma IsTrueExactly(value: Json)
    ensures IsTrue(value) <==>
            || value == Bool(true)
            || (value.Str? && |value.s| == 4 && forall i | 0 <= i < 4 :: value.s[i] in {"true"[i], "TRUE"[i]})
  {
  }

  /** The position of the first condition of type "Ready". */
  function ReadyAt(conditions: seq<Json>): (r: Option<nat>)
    ensures r.Some? ==> r.value < |conditions| && Field(conditions[r.value], "type") == Str("Ready")
    ensures r.Some? ==> forall i | 0 <= i < r.value :: Field(conditions[i], "type") != Str("Ready")
    ensures r.None? ==> forall i | 0 <= i < |conditions| :: Field(conditions[i], "type") != Str("Ready")
  {
    if conditions == [] then None
    else if Field(conditions[0], "type") == Str("Ready") then Some(0)
    else
      match ReadyAt(conditions[1..])
      case None => None
      case Some(i) => Some(i + 1)
  }

  /** The first condition of type "Ready" says so. */
  predicate IsReady(body: Json) {
    var conditions := ListOf(Field(Field(body, "status"), "conditions"));
    var at := ReadyAt(conditions);
    at.Some? && IsTrue(Field(conditions[at.value], "status"))
  }

  /** `check_ready` on the status of a resource just read. */
  method CheckReady(body: Json) returns (ready: bool)
    ensures ready == IsReady(body)
  {
    var conditions := ListOf(Field(Field(body, "status"), "conditions"));
    for i := 0 to |conditions|
      invariant forall j | 0 <= j < i :: Field(conditions[j], "type") != Str("Ready")
    {
      if Field(conditions[i], "type") == Str("Ready") {
        assert ReadyAt(conditions) == Some(i);
        return IsTrue(Field(conditions[i], "status"));
      }
    }
    ready := false;
  }

  // ----- What the operator's calls may have asked of the server

  datatype Wait = Gone | TimedOut | Broke

  /** The polls of one wait for deletion: it ends well at a 404, escapes at a broken one, and else times out. */
  predicate Waits(gets: seq<Request>, w: Wait) {
    && gets != []
    && (forall i | 0 <= i < |gets| :: gets[i].Got?)
    && (forall i | 0 <= i < |gets| - 1 :: !gets[i].reply.NotFound? && !gets[i].reply.Broken?)
    && match w
       case Gone => gets[|gets| - 1].reply.NotFound?
       case Broke => gets[|gets| - 1].reply.Broken?
       case TimedOut => !gets[|gets| - 1].reply.NotFound? && !gets[|gets| - 1].reply.Broken?
  }

  /** How one `apply_params` went. */
  datatype ApplyRun =
    | Unavailable
    | NotRead(reply: Reply)
    | NotDeleted(read: Json, reply: Reply)
    | WaitBroke(read: Json, gets: seq<Request>)
    | WaitTimedOut(read: Json, gets: seq<Request>, again: seq<Request>, second: Wait, late: Option<Reply>)
    | NotCreated(read: Json, gets: seq<Request>, reply: Reply, restored: Reply)
    | Recreated(read: Json, gets: seq<Request>)

  /** Each step is taken exactly when the steps before it ended as they must. */
  predicate Applies(run: ApplyRun) {
    match run
    case Unavailable => true
    case NotRead(r) => !r.Done?
    case NotDeleted(_, r) => !r.Done?
    case WaitBroke(_, gets) => Waits(gets, Broke)
    case WaitTimedOut(_, gets, again, w, late) =>
      Waits(gets, TimedOut) && Waits(again, w) && (late.Some? <==> w.Gone?)
    case NotCreated(_, gets, r, _) => Waits(gets, Gone) && !r.Done?
    case Recreated(_, gets) => Waits(gets, Gone)
  }

  /** The requests of such a run, where `modified` is created and, when that fails, `kept`. */
  function ApplyRequests(run: ApplyRun, modified: Json, kept: Json): seq<Request> {
    match run
    case Unavailable => []
    case NotRead(r) => [Got(r)]
    case NotDeleted(read, r) => [Got(Done(read)), Deleted(r)]
    case WaitBroke(read, gets) => [Got(Done(read)), Deleted(Done(Null))] + gets
    case WaitTimedOut(read, gets, again, _, late) =>
      [Got(Done(read)), Deleted(Done(Null))] + gets +
      (again + if late.Some? then [Created(kept, late.value)] else [])
    case NotCreated(read, gets, r, restored) =>
      [Got(Done(read)), Deleted(Done(Null))] + gets + [Created(modified, r), Created(kept, restored)]
    case Recreated(read, gets) =>
      [Got(Done(read)), Deleted(Done(Null))] + gets + [Created(modified, Done(Null))]
  }

  datatype Rollback = RolledBack | NotRolledBack | Raised

  /** How one `rollback_to_snapshot` went. */
  datatype RollbackRun =
    | NothingToRestore
    | NotRemoved(reply: Reply)
    | NotGone(gets: seq<Request>, wait: Wait)
    | Restored(gets: seq<Request>, reply: Reply)

  predicate RollsBack(run: RollbackRun) {
    match run
    case NothingToRestore => true
    case NotRemoved(r) => !r.Done?
    case NotGone(gets, w) => Waits(gets, w) && !w.Gone?
    case Restored(gets, _) => Waits(gets, Gone)
  }

  function RollbackRequests(run: RollbackRun, kept: Json): seq<Request> {
    match run
    case NothingToRestore => []
    case NotRemoved(r) => [Deleted(r)]
    case NotGone(gets, _) => [Deleted(Done(Null))] + gets
    case Restored(gets, r) => [Deleted(Done(Null))] + gets + [Created(kept, r)]
  }

  /** API errors are caught; broken replies, and a deletion that does not complete, escape. */
  function OutcomeOf(run: RollbackRun): Rollback {
    match run
    case NothingToRestore => NotRolledBack
    case NotRemoved(r) => if r.Broken? then Raised else NotRolledBack
    case NotGone(_, _) => Raised
    case Restored(_, r) => if r.Done? then RolledBack else if r.Broken? then Raised else NotRolledBack
  }

  lemma Appended<T>(a: seq<T>, b: seq<T>, c: seq<T>, d: seq<T>)
    ensures a + b + c == a + (b + c) && a + b + c + d == a + (b + c + d)
  {
  }

  // ----- The operator

  class K8sOperator {
    const server: ApiServer
    const realText: real -> string
    const available: bool
    var snapshot: Option<Json>
    var lastRollback: Option<nat>

    ghost predicate Valid()
      reads this, server
    {
      && server.Valid() && (forall x: real :: Word(realText(x)))
      && (snapshot.Some? ==> WellShaped(server.kind, snapshot.value))
    }

    constructor (server: ApiServer, realText: real -> string, available: bool)
      requires server.Valid() && forall x: real :: Word(realText(x))
      ensures Valid() && this.server == server && snapshot.None?
    {
      this.server, this.realText, this.available := server, realText, available;
      snapshot, lastRollback := None, None;
    }

    function Config(p: Params): seq<Entry> {
      ParamsEntries(p, realText)
    }

    /** Polls until the resource is gone, at least once; only a 404 counts, and a broken reply escapes. */
    method WaitForDeletion() returns (w: Wait, ghost gets: seq<Request>)
      requires server.Valid()
      modifies server`state, server`requests
      ensures server.Valid() && Drifts(old(server.state), server.state)
      ensures server.requests == old(server.requests) + gets && Waits(gets, w)
      ensures w.Gone? ==> server.state.Absent?
    {
      var reply := server.Get();
      gets := [Got(reply)];
      var polls: int := *;
      while polls > 0 && !reply.NotFound? && !reply.Broken?
        invariant server.Valid() && Drifts(old(server.state), server.state)
        invariant server.requests == old(server.requests) + gets && gets != [] && gets[|gets| - 1] == Got(reply)
        invariant forall i | 0 <= i < |gets| :: gets[i].Got?
        invariant forall i | 0 <= i < |gets| - 1 :: !gets[i].reply.NotFound? && !gets[i].reply.Broken?
        invariant reply.NotFound? ==> server.state.Absent?
        decreases polls
      {
        polls := polls - 1;
        reply := server.Get();
        gets := gets + [Got(reply)];
      }
      w := if reply.NotFound? then Gone else if reply.Broken? then Broke else TimedOut;
    }

    /** Best effort: waits longer, then creates the snapshot again. */
    method RecreateFromSnapshot() returns (ghost again: seq<Request>, ghost w: Wait, ghost restored: Option<Reply>)
      requires Valid() && snapshot.Some?
      modifies server
      ensures Valid() && server.creates >= old(server.creates)
      ensures Waits(again, w) && (restored.Some? <==> w.Gone?)
      ensures server.requests == old(server.requests) +
                (again + if restored.Some? then [Created(CleanForCreate(snapshot.value), restored.value)] else [])
      ensures server.creates > old(server.creates) ==>
                server.state.Present? && server.Held() == Some(CleanForCreate(snapshot.value))
      ensures server.creates == old(server.creates) ==> Drifts(old(server.state), server.state)
    {
      SnapshotIsWellShaped(server.kind, snapshot.value);
      hide WellShaped, CleanForCreate, Waits;
      var wait;
      wait, again := WaitForDeletion();
      w, restored := wait, None;
      if wait.Gone? {
        var reply := server.Create(CleanForCreate(snapshot.value));
        restored := Some(reply);
      }
    }

    /** Reads the resource, keeps it as the snapshot, and makes the modified one of it. */
    method TakeSnapshot(p: Params) returns (modified: Option<Json>, ghost reply: Reply)
      requires Valid()
      modifies this`snapshot, server`state, server`requests
      ensures Valid() && Drifts(old(server.state), server.state)
      ensures server.requests == old(server.requests) + [Got(reply)] && (modified.Some? <==> reply.Done?)
      ensures modified.Some? ==>
                && snapshot == Some(reply.body)
                && server.Held() == old(server.Held()) == Some(CleanForCreate(reply.body))
                && WellShaped(server.kind, CleanForCreate(reply.body))
                && modified.value == Applied(server.kind, CleanForCreate(reply.body), Config(p))
                && WellShaped(server.kind, modified.value) && CleanForCreate(modified.value) == modified.value
    {
      var r := server.Get();
      reply := r;
      if !r.Done? { return None, reply; }
      snapshot := Some(r.body);
      AppliedToHeld(server.kind, r.body, Config(p));
      ParamsEntriesFacts(p, realText, server.kind);
      AppliedIsWellShaped(server.kind, r.body, Config(p));
      hide ParamsEntries, Word;
      var cr := new CustomResource(server.kind, r.body);
      var clean := cr.ApplyArgs(Config(p));
      modified := Some(clean);
    }

    /** Creates the modified resource; when that fails, the snapshot. */
    method CreateOrRestore(modified: Json) returns (ok: bool, ghost reply: Reply, ghost restored: Reply)
      requires Valid() && snapshot.Some? && server.state.Absent?
      requires WellShaped(server.kind, modified) && CleanForCreate(modified) == modified
      modifies server
      ensures Valid() && server.creates >= old(server.creates)
      ensures (ok <==> reply.Done?) && (ok <==> reply == Done(Null))
      ensures ok ==> server.state.Present? && server.Held() == Some(modified)
      ensures server.Held() in {None, Some(modified), Some(CleanForCreate(snapshot.value))}
      ensures server.creates > old(server.creates) <==> server.state.Present?
      ensures server.requests == old(server.requests) +
                ([Created(modified, reply)] + if ok then [] else [Created(CleanForCreate(snapshot.value), restored)])
    {
      SnapshotIsWellShaped(server.kind, snapshot.value);
      hide WellShaped, CleanForCreate;
      var created := server.Create(modified);
      ok, reply, restored := created.Done?, created, created;
      if !ok {
        var again := server.Create(CleanForCreate(snapshot.value));
        restored := again;
      }
    }

    /**
     * Deletes the resource and creates it again with new arguments. Success means exactly that; whatever fails,
     * the server holds the old resource, the modified one, or nothing, and nothing only if no create took effect.
     * The run tells all requests made: after a failed create of the modified resource, or a wait that timed out,
     * the snapshot is tried; after a wait broken by another exception it is not, and the deletion stands, as does
     * one that took effect although its reply was an error.
     */
    method ApplyParams(p: Params) returns (ok: bool, ghost run: ApplyRun)
      requires Valid()
      modifies this`snapshot, server
      ensures Valid() && server.creates >= old(server.creates)
      ensures Applies(run) && (ok <==> run.Recreated?) && (run.Unavailable? <==> !available)
      ensures run.Unavailable? || run.NotRead? ==>
                server.requests == old(server.requests) + ApplyRequests(run, Null, Null)
      ensures !run.Unavailable? && !run.NotRead? ==>
                && snapshot == Some(run.read) && old(server.Held()) == Some(CleanForCreate(run.read))
                && WellShaped(server.kind, CleanForCreate(run.read))
                && server.requests == old(server.requests) + ApplyRequests(run,
                     Applied(server.kind, CleanForCreate(run.read), Config(p)), CleanForCreate(run.read))
      ensures ok ==>
                && server.state.Present?
                && server.Held() == Some(Applied(server.kind, CleanForCreate(run.read), Config(p)))
                && Carries(server.kind, server.Held().value, p, realText)
      ensures !ok ==>
                || server.Held().None? || server.Held() == old(server.Held())
                || (&& old(server.Held()).Some? && WellShaped(server.kind, old(server.Held()).value)
                    && server.Held() == Some(Applied(server.kind, old(server.Held()).value, Config(p))))
      ensures server.creates > old(server.creates) ==> server.state.Present?
      ensures server.creates == old(server.creates) && !run.Unavailable? && !run.NotRead? && !run.NotDeleted? ==>
                !server.state.Present?
      ensures run.NotDeleted? ==>
                && server.creates == old(server.creates)
                && (Drifts(old(server.state), server.state) || Removed(old(server.state), server.state))
      ensures run.WaitBroke? ==> server.creates == old(server.creates) && !server.state.Present?
    {
      hide WellShaped, Applied, CleanForCreate, ParamsEntries, Word, Waits, Carries;
      if !available { return false, Unavailable; }
      ghost var before := server.requests;
      var modified;
      ghost var reply;
      modified, reply := TakeSnapshot(p);
      if modified.None? { return false, NotRead(reply); }
      ghost var read := reply.body;
      var deleted := server.Delete();
      ghost var opening := [Got(reply), Deleted(deleted)];
      assert server.requests == before + opening;
      if !deleted.Done? { return false, NotDeleted(read, deleted); }
      ghost var gets;
      var wait;
      wait, gets := WaitForDeletion();
      Appended(before, opening, gets, []);
      if wait.TimedOut? {
        ghost var again, w, late := RecreateFromSnapshot();
        Appended(before, opening, gets,
          again + if late.Some? then [Created(CleanForCreate(read), late.value)] else []);
        return false, WaitTimedOut(read, gets, again, w, late);
      }
      if wait.Broke? { return false, WaitBroke(read, gets); }
      ghost var c, c2;
      ok, c, c2 := CreateOrRestore(modified.value);
      AppliedCarries(server.kind, CleanForCreate(read), p, realText);
      Appended(before, opening, gets,
        [Created(modified.value, c)] + if ok then [] else [Created(CleanForCreate(read), c2)]);
      run := if ok then Recreated(read, gets) else NotCreated(read, gets, c, c2);
    }

    /** Deletes the resource and creates the snapshot again. The run tells all requests, and they the outcome. */
    method RollbackToSnapshot(trialNum: nat) returns (r: Rollback, ghost run: RollbackRun)
      requires Valid()
      modifies this`lastRollback, server
      ensures Valid() && server.creates >= old(server.creates)
      ensures RollsBack(run) && r == OutcomeOf(run) && (run.NothingToRestore? <==> !available || snapshot.None?)
      ensures server.requests == old(server.requests) +
                RollbackRequests(run, if snapshot.Some? then CleanForCreate(snapshot.value) else Null)
      ensures r.RolledBack? ==>
                && snapshot.Some? && server.state.Present? && server.Held() == Some(CleanForCreate(snapshot.value))
                && lastRollback == Some(trialNum)
      ensures !r.RolledBack? ==>
                || server.Held().None? || server.Held() == old(server.Held())
                || (snapshot.Some? && server.Held() == Some(CleanForCreate(snapshot.value)))
      ensures !r.RolledBack? ==> lastRollback == old(lastRollback)
      ensures server.creates > old(server.creates) ==> server.state.Present?
    {
      if !available || snapshot.None? { return NotRolledBack, NothingToRestore; }
      SnapshotIsWellShaped(server.kind, snapshot.value);
      hide WellShaped, CleanForCreate, Waits;
      ghost var before := server.requests;
      var body := CleanForCreate(snapshot.value);
      var deleted := server.Delete();
      if !deleted.Done? {
        return if deleted.Broken? then Raised else NotRolledBack, NotRemoved(deleted);
      }
      ghost var gets;
      var wait;
      wait, gets := WaitForDeletion();
      Appended(before, [Deleted(deleted)], gets, []);
      if !wait.Gone? { return Raised, NotGone(gets, wait); }
      var created := server.Create(body);
      Appended(before, [Deleted(deleted)], gets, [Created(body, created)]);
      run := Restored(gets, created);
      if created.Done? {
        lastRollback := Some(trialNum);
        r := RolledBack;
      } else {
        r := if created.Broken? then Raised else NotRolledBack;
      }
    }
  }

  lemma SnapshotIsWellShaped(kind: CrKind, cr: Json)
    requires WellShaped(kind, cr)
    ensures WellShaped(kind, CleanForCreate(cr)) && CleanForCreate(CleanForCreate(cr)) == CleanForCreate(cr)
  {
    CleanKeepsArgs(kind, cr);
    CleanFacts(cr);
  }

  lemma AppliedToHeld(kind: CrKind, cr: Json, newer: seq<Entry>)
    requires WellShaped(kind, cr)
    ensures WellShaped(kind, CleanForCreate(cr))
    ensures CleanForCreate(Applied(kind, cr, newer)) == Applied(kind, CleanForCreate(cr), newer)
  {
    SnapshotIsWellShaped(kind, cr);
    CleanFacts(cr);
    CleanIsApplied(kind, cr, newer);
  }

  lemma CleanIsApplied(kind: CrKind, cr: Json, newer: seq<Entry>)
    requires WellShaped(kind, cr) && WellShaped(kind, CleanForCreate(cr))
    ensures CleanForCreate(Applied(kind, cr, newer)) == Applied(kind, CleanForCreate(cr), newer)
  {
    CleanFacts(cr);
    hide CleanForCreate, Split, Overridden, NewValue, Upsert, MemberOf, FromStrings, With;
    CleanWithSpec(cr, Field(Applied(kind, cr, newer), "spec"));
  }

  lemma AppliedIsWellShaped(kind: CrKind, cr: Json, newer: seq<Entry>)
    requires WellShaped(kind, cr) && Fits(kind, newer)
    ensures WellShaped(kind, CleanForCreate(Applied(kind, cr, newer)))
    ensures CleanForCreate(CleanForCreate(Applied(kind, cr, newer))) == CleanForCreate(Applied(kind, cr, newer))
  {
    AppliedArgs(kind, cr, newer);
    SnapshotIsWellShaped(kind, Applied(kind, cr, newer));
  }
}
