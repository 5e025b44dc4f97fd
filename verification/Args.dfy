/** vLLM command lines: parsing, stripping and printing the four tuning arguments. */
module Args {
  import opened PatchAlgebra

  /** A configuration key; `Other` stands for any key without a command-line flag. */
  datatype Key =
    | MaxNumSeqs
    | GpuMemoryUtilization
    | MaxModelLen
    | MaxNumBatchedTokens
    | Other(name: string)

  function Flag(k: Key): string {
    match k
    case MaxNumSeqs => "--max-num-seqs"
    case GpuMemoryUtilization => "--gpu-memory-utilization"
    case MaxModelLen => "--max-model-len"
    case MaxNumBatchedTokens => "--max-num-batched-tokens"
    case Other(_) => ""
  }

  // ----- Configurations: dictionaries in insertion order

  datatype Entry = Entry(key: Key, value: string)

  function Lookup(c: seq<Entry>, k: Key): Option<string> {
    if c == [] then None else if c[0].key == k then Some(c[0].value) else Lookup(c[1..], k)
  }

  predicate UniqueKeys(c: seq<Entry>) {
    c == [] || (Lookup(c[1..], c[0].key).None? && UniqueKeys(c[1..]))
  }

  /** `c[k] = v`: in place for a key already there, at the end otherwise. */
  function Put(c: seq<Entry>, k: Key, v: string): seq<Entry> {
    if c == [] then [Entry(k, v)]
    else if c[0].key == k then [Entry(k, v)] + c[1..]
    else [c[0]] + Put(c[1..], k, v)
  }

  /** `c.update(d)` */
  function Updated(c: seq<Entry>, d: seq<Entry>): seq<Entry>
    decreases |d|
  {
    if d == [] then c else Updated(Put(c, d[0].key, d[0].value), d[1..])
  }

  predicate Printable(e: Entry) {
    !e.key.Other? && e.value != ""
  }

  /** The entries that reach the command line. */
  function Shown(c: seq<Entry>): seq<Entry> {
    if c == [] then [] else if Printable(c[0]) then [c[0]] + Shown(c[1..]) else Shown(c[1..])
  }

  lemma {:induction false} PutFacts(c: seq<Entry>, k: Key, v: string, l: Key)
    ensures Lookup(Put(c, k, v), l) == if l == k then Some(v) else Lookup(c, l)
    ensures UniqueKeys(c) ==> UniqueKeys(Put(c, k, v))
    decreases |c|
  {
    if c != [] && c[0].key != k {
      PutFacts(c[1..], k, v, l);
      PutFacts(c[1..], k, v, c[0].key);
      assert Put(c, k, v)[1..] == Put(c[1..], k, v);
    } else if c != [] {
      assert Put(c, k, v)[1..] == c[1..];
    }
  }

  lemma {:induction false} NotAKey(c: seq<Entry>, k: Key)
    requires forall e | e in c :: e.key != k
    ensures Lookup(c, k).None?
    decreases |c|
  {
    if c != [] {
      assert c[0] in c;
      NotAKey(c[1..], k);
    }
  }

  lemma {:induction false} LookupFound(c: seq<Entry>, k: Key)
    requires Lookup(c, k).Some?
    ensures Entry(k, Lookup(c, k).value) in c
    decreases |c|
  {
    if c[0].key != k { LookupFound(c[1..], k); }
  }

  lemma {:induction false} LookupMember(c: seq<Entry>, e: Entry)
    requires UniqueKeys(c) && e in c
    ensures Lookup(c, e.key) == Some(e.value)
    decreases |c|
  {
    if c[0] != e {
      LookupMember(c[1..], e);
    }
  }

  lemma UniqueCons(e: Entry, c: seq<Entry>)
    requires UniqueKeys(c) && forall x | x in c :: x.key != e.key
    ensures UniqueKeys([e] + c)
  {
    NotAKey(c, e.key);
    assert ([e] + c)[1..] == c;
  }

  /** `update` overrides key by key, and keeps keys unique. */
  lemma {:induction false} UpdatedFacts(c: seq<Entry>, d: seq<Entry>, k: Key)
    requires UniqueKeys(c) && UniqueKeys(d)
    ensures UniqueKeys(Updated(c, d))
    ensures Lookup(Updated(c, d), k) == if Lookup(d, k).Some? then Lookup(d, k) else Lookup(c, k)
    decreases |d|
  {
    hide Put;
    if d != [] {
      PutFacts(c, d[0].key, d[0].value, k);
      UpdatedFacts(Put(c, d[0].key, d[0].value), d[1..], k);
    }
  }

  lemma {:induction false} PutAppends(c: seq<Entry>, k: Key, v: string)
    requires Lookup(c, k).None?
    ensures Put(c, k, v) == c + [Entry(k, v)]
    decreases |c|
  {
    if c != [] {
      PutAppends(c[1..], k, v);
    }
  }

  /** Updating nothing. */
  lemma {:induction false} UpdatedAppends(c: seq<Entry>, d: seq<Entry>)
    requires UniqueKeys(c + d)
    ensures Updated(c, d) == c + d
    decreases |d|
  {
    if d == [] {
      assert c + d == c;
    } else {
      UniqueAcross(c, d);
      PutAppends(c, d[0].key, d[0].value);
      assert c + [d[0]] + d[1..] == c + d;
      UpdatedAppends(c + [d[0]], d[1..]);
    }
  }

  lemma {:induction false} UniqueAcross(c: seq<Entry>, d: seq<Entry>)
    requires UniqueKeys(c + d) && d != []
    ensures Lookup(c, d[0].key).None?
    decreases |c|
  {
    if c != [] {
      assert (c + d)[1..] == c[1..] + d;
      UniqueAcross(c[1..], d);
      LookupInAppend(c[1..], d);
    }
  }

  lemma {:induction false} LookupInAppend(c: seq<Entry>, d: seq<Entry>)
    requires d != []
    ensures Lookup(c + d, d[0].key).Some?
    decreases |c|
  {
    if c == [] {
      assert c + d == d;
    } else {
      assert (c + d)[1..] == c[1..] + d;
      LookupInAppend(c[1..], d);
    }
  }

  lemma {:induction false} PutPut(c: seq<Entry>, k: Key, v: string, w: string)
    ensures Put(Put(c, k, v), k, w) == Put(c, k, w)
    decreases |c|
  {
    if c != [] && c[0].key != k {
      PutPut(c[1..], k, v, w);
      assert Put(c, k, v)[1..] == Put(c[1..], k, v);
    }
  }

  lemma {:induction false} PutCommutes(c: seq<Entry>, k: Key, v: string, l: Key, w: string)
    requires k != l && Lookup(c, k).Some?
    ensures Put(Put(c, k, v), l, w) == Put(Put(c, l, w), k, v)
    decreases |c|
  {
    if c[0].key == k {
      assert Put(c, k, v)[1..] == c[1..];
      assert Put(c, l, w)[1..] == Put(c[1..], l, w);
    } else if c[0].key == l {
      assert Put(c, l, w)[1..] == c[1..];
      assert Put(c, k, v)[1..] == Put(c[1..], k, v);
    } else {
      PutCommutes(c[1..], k, v, l, w);
      assert Put(c, l, w)[1..] == Put(c[1..], l, w);
      assert Put(c, k, v)[1..] == Put(c[1..], k, v);
    }
  }

  /** A key of `c` that `d` lacks may be put before or after the update. */
  lemma {:induction false} UpdatedThenPut(c: seq<Entry>, d: seq<Entry>, k: Key, v: string)
    requires Lookup(c, k).Some? && Lookup(d, k).None?
    ensures Put(Updated(c, d), k, v) == Updated(Put(c, k, v), d)
    decreases |d|
  {
    hide Put;
    if d != [] {
      PutFacts(c, d[0].key, d[0].value, k);
      PutCommutes(c, k, v, d[0].key, d[0].value);
      UpdatedThenPut(Put(c, d[0].key, d[0].value), d[1..], k, v);
    }
  }

  lemma {:induction false} UpdatedPut(c: seq<Entry>, d: seq<Entry>, k: Key, v: string)
    requires UniqueKeys(d)
    ensures Updated(c, Put(d, k, v)) == Put(Updated(c, d), k, v)
    decreases |d|
  {
    if d == [] {
    } else if d[0].key == k {
      assert Put(d, k, v)[1..] == d[1..];
      PutFacts(c, k, d[0].value, k);
      UpdatedThenPut(Put(c, k, d[0].value), d[1..], k, v);
      PutPut(c, k, d[0].value, v);
    } else {
      assert Put(d, k, v)[1..] == Put(d[1..], k, v);
      UpdatedPut(Put(c, d[0].key, d[0].value), d[1..], k, v);
    }
  }

  lemma {:induction false} UpdatedAssociative(a: seq<Entry>, b: seq<Entry>, c: seq<Entry>)
    requires UniqueKeys(b)
    ensures Updated(Updated(a, b), c) == Updated(a, Updated(b, c))
    decreases |c|
  {
    hide Put;
    if c != [] {
      UpdatedPut(a, b, c[0].key, c[0].value);
      PutFacts(b, c[0].key, c[0].value, c[0].key);
      UpdatedAssociative(a, Put(b, c[0].key, c[0].value), c[1..]);
    }
  }

  lemma {:induction false} ShownFacts(c: seq<Entry>, k: Key)
    requires UniqueKeys(c)
    ensures UniqueKeys(Shown(c))
    ensures Lookup(Shown(c), k) == if k.Other? || Lookup(c, k) == Some("") then None else Lookup(c, k)
    decreases |c|
  {
    if c != [] {
      ShownFacts(c[1..], k);
      ShownFacts(c[1..], c[0].key);
      if Printable(c[0]) {
        assert Shown(c)[1..] == Shown(c[1..]);
      }
    }
  }

  lemma {:induction false} ShownOfPrintable(c: seq<Entry>)
    requires forall e | e in c :: Printable(e)
    ensures Shown(c) == c
    decreases |c|
  {
    if c != [] {
      ShownOfPrintable(c[1..]);
    }
  }

  // ----- Tokens

  predicate Starts(t: string, k: Key) {
    Flag(k) <= t
  }

  predicate Assigns(t: string, k: Key) {
    Flag(k) + "=" <= t
  }

  predicate IsFlag(t: string) {
    t == Flag(MaxNumSeqs) || t == Flag(GpuMemoryUtilization) || t == Flag(MaxModelLen) || t == Flag(MaxNumBatchedTokens)
  }

  predicate TuningPrefix(t: string) {
    Starts(t, MaxNumSeqs) || Starts(t, GpuMemoryUtilization) || Starts(t, MaxModelLen) || Starts(t, MaxNumBatchedTokens)
  }

  predicate StartsDashDash(t: string) {
    "--" <= t
  }

  function KeyOfFlag(t: string): Key
    requires IsFlag(t)
  {
    if t == Flag(MaxNumSeqs) then MaxNumSeqs
    else if t == Flag(GpuMemoryUtilization) then GpuMemoryUtilization
    else if t == Flag(MaxModelLen) then MaxModelLen
    else MaxNumBatchedTokens
  }

  /** The first key whose flag and "=" start the token. */
  function KeyOfAssignment(t: string): Option<Key> {
    if Assigns(t, MaxNumSeqs) then Some(MaxNumSeqs)
    else if Assigns(t, GpuMemoryUtilization) then Some(GpuMemoryUtilization)
    else if Assigns(t, MaxModelLen) then Some(MaxModelLen)
    else if Assigns(t, MaxNumBatchedTokens) then Some(MaxNumBatchedTokens)
    else None
  }

  /** `t.split("=", 1)[1]`, for a token that has an "=". */
  function AfterEquals(t: string): string {
    if t == "" then "" else if t[0] == '=' then t[1..] else AfterEquals(t[1..])
  }

  function Assignment(k: Key, v: string): string {
    Flag(k) + "=" + v
  }

  lemma {:induction false} FlagShape(k: Key)
    requires !k.Other?
    ensures |Flag(k)| >= 14 && '=' !in Flag(k) && StartsDashDash(Flag(k))
    ensures Flag(k)[2] == 'g' <==> k == GpuMemoryUtilization
    ensures Flag(k)[6] == 'm' <==> k == MaxModelLen || k == GpuMemoryUtilization
    ensures Flag(k)[10] == 's' <==> k == MaxNumSeqs
    ensures Flag(k)[10] == 'b' ==> k == MaxNumBatchedTokens
  {
  }

  /** No flag is a prefix of a token another flag starts. */
  lemma FlagsPrefixFree(a: Key, b: Key, t: string)
    requires !a.Other? && !b.Other? && Flag(a) <= t && Flag(b) <= t
    ensures a == b
  {
    FlagShape(a);
    FlagShape(b);
    hide Flag;
    assert t[2] == Flag(a)[2] == Flag(b)[2] && t[6] == Flag(a)[6] == Flag(b)[6] && t[10] == Flag(a)[10] == Flag(b)[10];
  }

  lemma {:induction false} AfterEqualsOf(f: string, v: string)
    requires '=' !in f
    ensures AfterEquals(f + "=" + v) == v
    decreases |f|
  {
    if f != "" {
      AfterEqualsOf(f[1..], v);
      assert (f + "=" + v)[1..] == f[1..] + "=" + v;
    }
  }

  lemma AssignmentVersus(k: Key, v: string, l: Key)
    requires !k.Other? && !l.Other?
    ensures Assignment(k, v) != Flag(l)
    ensures Starts(Assignment(k, v), l) <==> l == k
    ensures Assigns(Assignment(k, v), l) <==> l == k
  {
    var t := Assignment(k, v);
    FlagShape(k);
    FlagShape(l);
    hide Flag;
    assert t[|Flag(k)|] == '=' && Flag(k) <= t;
    if Starts(t, l) { FlagsPrefixFree(k, l, t); }
    if Assigns(t, l) { assert Flag(l) <= Flag(l) + "="; }
  }

  lemma AssignmentFacts(k: Key, v: string)
    requires !k.Other?
    ensures var t := Assignment(k, v);
            !IsFlag(t) && TuningPrefix(t) && AfterEquals(t) == v && KeyOfAssignment(t) == Some(k)
  {
    FlagShape(k);
    AfterEqualsOf(Flag(k), v);
    hide Flag, Starts, Assigns;
    AssignmentVersus(k, v, MaxNumSeqs);
    AssignmentVersus(k, v, GpuMemoryUtilization);
    AssignmentVersus(k, v, MaxModelLen);
    AssignmentVersus(k, v, MaxNumBatchedTokens);
  }

  // ----- The command line

  /** A flag takes the token after it unless that starts with "--". */
  function Width(args: seq<string>): (w: nat)
    requires args != []
    ensures 1 <= w <= |args|
  {
    if IsFlag(args[0]) && |args| > 1 && !StartsDashDash(args[1]) then 2 else 1
  }

  /** The configuration after the first token, and its value if that stands in the second. */
  function Take(args: seq<string>, c: seq<Entry>): seq<Entry>
    requires args != []
  {
    var t := args[0];
    if IsFlag(t) then (if Width(args) == 2 then Put(c, KeyOfFlag(t), args[1]) else c)
    else
      match KeyOfAssignment(t)
      case Some(k) => Put(c, k, AfterEquals(t))
      case None => c
  }

  function ParseFrom(args: seq<string>, c: seq<Entry>): seq<Entry>
    decreases |args|
  {
    if args == [] then c else ParseFrom(args[Width(args)..], Take(args, c))
  }

  function Parse(args: seq<string>): seq<Entry> {
    ParseFrom(args, [])
  }

  function Strip(args: seq<string>): seq<string>
    decreases |args|
  {
    if args == [] then []
    else if TuningPrefix(args[0]) then Strip(args[Width(args)..])
    else [args[0]] + Strip(args[Width(args)..])
  }

  /** The tokens that the parser takes neither as a flag nor as a value. */
  function Unread(args: seq<string>): seq<string>
    decreases |args|
  {
    if args == [] then []
    else if IsFlag(args[0]) || KeyOfAssignment(args[0]).Some? then Unread(args[Width(args)..])
    else [args[0]] + Unread(args[Width(args)..])
  }

  function Print(c: seq<Entry>): seq<string> {
    if c == [] then []
    else if Printable(c[0]) then [Assignment(c[0].key, c[0].value)] + Print(c[1..])
    else Print(c[1..])
  }

  /** The command line after `new` has been laid over the old one. */
  function Overridden(args: seq<string>, newer: seq<Entry>): seq<string> {
    Strip(args) + Print(Updated(Parse(args), newer))
  }

  predicate Static(ts: seq<string>) {
    forall t | t in ts :: !TuningPrefix(t)
  }

  lemma FlagHasPrefix(t: string)
    requires IsFlag(t) || KeyOfAssignment(t).Some?
    ensures TuningPrefix(t)
  {
    AssignsStarts(t, MaxNumSeqs);
    AssignsStarts(t, GpuMemoryUtilization);
    AssignsStarts(t, MaxModelLen);
    AssignsStarts(t, MaxNumBatchedTokens);
    hide Flag, Assigns;
  }

  lemma AssignsStarts(t: string, k: Key)
    ensures Assigns(t, k) ==> Starts(t, k)
  {
    hide Flag;
    if Assigns(t, k) { assert Flag(k) <= Flag(k) + "="; }
  }

  lemma {:induction false} StripIsStatic(args: seq<string>)
    ensures Static(Strip(args))
    decreases |args|
  {
    hide IsFlag, TuningPrefix, StartsDashDash;
    if args != [] {
      StripIsStatic(args[Width(args)..]);
    }
  }

  lemma {:induction false} StaticPrefix(ts: seq<string>, rest: seq<string>)
    requires Static(ts)
    ensures Strip(ts + rest) == ts + Strip(rest)
    decreases |ts|
  {
    hide IsFlag, TuningPrefix, StartsDashDash, KeyOfAssignment;
    if ts == [] {
      assert ts + rest == rest && ts + Strip(rest) == Strip(rest);
    } else {
      if IsFlag(ts[0]) { FlagHasPrefix(ts[0]); }
      assert (ts + rest)[1..] == ts[1..] + rest;
      StaticPrefix(ts[1..], rest);
      assert [ts[0]] + (ts[1..] + Strip(rest)) == ts + Strip(rest);
    }
  }

  lemma {:induction false} StaticParsesToNothing(ts: seq<string>, rest: seq<string>, c: seq<Entry>)
    requires Static(ts)
    ensures ParseFrom(ts + rest, c) == ParseFrom(rest, c)
    decreases |ts|
  {
    hide IsFlag, TuningPrefix, StartsDashDash, KeyOfAssignment, Put;
    if ts == [] {
      assert ts + rest == rest;
    } else {
      if IsFlag(ts[0]) || KeyOfAssignment(ts[0]).Some? { FlagHasPrefix(ts[0]); }
      assert (ts + rest)[1..] == ts[1..] + rest;
      StaticParsesToNothing(ts[1..], rest, c);
    }
  }

  lemma {:induction false} PrintedLine(c: seq<Entry>, acc: seq<Entry>)
    ensures Strip(Print(c)) == []
    ensures ParseFrom(Print(c), acc) == Updated(acc, Shown(c))
    decreases |c|
  {
    hide IsFlag, TuningPrefix, StartsDashDash, KeyOfAssignment, AfterEquals, Assignment;
    if c != [] {
      var e, p := c[0], Print(c);
      if Printable(e) {
        AssignmentFacts(e.key, e.value);
        assert p[1..] == Print(c[1..]);
        PrintedLine(c[1..], Put(acc, e.key, e.value));
        assert Shown(c)[1..] == Shown(c[1..]);
      } else {
        PrintedLine(c[1..], acc);
      }
    }
  }

  lemma {:induction false} ParseUnique(args: seq<string>, c: seq<Entry>)
    requires UniqueKeys(c)
    ensures UniqueKeys(ParseFrom(args, c))
    decreases |args|
  {
    hide IsFlag, TuningPrefix, StartsDashDash, KeyOfAssignment, AfterEquals;
    if args != [] {
      forall k, v ensures UniqueKeys(Put(c, k, v)) { PutFacts(c, k, v, MaxNumSeqs); }
      ParseUnique(args[Width(args)..], Take(args, c));
    }
  }

  // ----- The two forms of an argument

  /** A line that no flag before it reaches into. */
  predicate Fresh(args: seq<string>) {
    args == [] || StartsDashDash(args[0])
  }

  lemma {:induction false} FirstBeforeFresh(a: seq<string>, b: seq<string>, c: seq<Entry>)
    requires a != [] && Fresh(b)
    ensures Width(a + b) == Width(a) && (a + b)[0] == a[0] && (a + b)[Width(a)..] == a[Width(a)..] + b
    ensures Take(a + b, c) == Take(a, c)
  {
    hide IsFlag, StartsDashDash, KeyOfAssignment, KeyOfFlag, AfterEquals, Put;
  }

  /** A line is read piece by piece, wherever a piece starts with dashes. */
  lemma {:induction false} ReadInPieces(a: seq<string>, b: seq<string>, c: seq<Entry>)
    requires Fresh(b)
    ensures ParseFrom(a + b, c) == ParseFrom(b, ParseFrom(a, c))
    decreases |a|
  {
    hide IsFlag, TuningPrefix, KeyOfAssignment, Fresh, Width, Take;
    if a == [] {
      assert a + b == b;
    } else {
      FirstBeforeFresh(a, b, c);
      ReadInPieces(a[Width(a)..], b, Take(a, c));
    }
  }

  lemma {:induction false} StrippedInPieces(a: seq<string>, b: seq<string>)
    requires Fresh(b)
    ensures Strip(a + b) == Strip(a) + Strip(b)
    decreases |a|
  {
    hide IsFlag, TuningPrefix, KeyOfAssignment, Fresh, Width, Take;
    if a == [] {
      assert a + b == b;
    } else {
      FirstBeforeFresh(a, b, []);
      StrippedInPieces(a[Width(a)..], b);
    }
  }

  lemma {:induction false} UnreadInPieces(a: seq<string>, b: seq<string>)
    requires Fresh(b)
    ensures Unread(a + b) == Unread(a) + Unread(b)
    decreases |a|
  {
    hide IsFlag, TuningPrefix, KeyOfAssignment, Fresh, Width, Take;
    if a == [] {
      assert a + b == b;
    } else {
      FirstBeforeFresh(a, b, []);
      UnreadInPieces(a[Width(a)..], b);
    }
  }

  lemma InPieces(a: seq<string>, b: seq<string>)
    requires Fresh(b)
    ensures Parse(a + b) == ParseFrom(b, Parse(a))
    ensures Strip(a + b) == Strip(a) + Strip(b) && Unread(a + b) == Unread(a) + Unread(b)
  {
    hide ParseFrom, Strip, Unread, Fresh;
    ReadInPieces(a, b, []);
    StrippedInPieces(a, b);
    UnreadInPieces(a, b);
  }

  lemma FlagIsOwn(k: Key)
    requires !k.Other?
    ensures IsFlag(Flag(k)) && KeyOfFlag(Flag(k)) == k && TuningPrefix(Flag(k)) && StartsDashDash(Flag(k))
  {
    FlagShape(k);
    FlagShape(MaxNumSeqs);
    FlagShape(GpuMemoryUtilization);
    FlagShape(MaxModelLen);
    hide Flag;
    FlagHasPrefix(Flag(k));
  }

  /** A flag with its value in the next token, in front of any line. */
  lemma {:induction false} FlagReads(k: Key, v: string, after: seq<string>, c: seq<Entry>)
    requires !k.Other? && !StartsDashDash(v)
    ensures ParseFrom([Flag(k), v] + after, c) == ParseFrom(after, Put(c, k, v))
    ensures Strip([Flag(k), v] + after) == Strip(after) && Unread([Flag(k), v] + after) == Unread(after)
  {
    FlagIsOwn(k);
    hide Flag, IsFlag, KeyOfFlag, TuningPrefix, StartsDashDash, KeyOfAssignment, AfterEquals, Put;
    var line := [Flag(k), v] + after;
    assert line[2..] == after && line[0] == Flag(k) && line[1] == v;
  }

  /** The same in one token. */
  lemma {:induction false} AssignmentReads(k: Key, v: string, after: seq<string>, c: seq<Entry>)
    requires !k.Other?
    ensures ParseFrom([Assignment(k, v)] + after, c) == ParseFrom(after, Put(c, k, v))
    ensures Strip([Assignment(k, v)] + after) == Strip(after) && Unread([Assignment(k, v)] + after) == Unread(after)
  {
    AssignmentFacts(k, v);
    hide Assignment, IsFlag, KeyOfFlag, TuningPrefix, StartsDashDash, KeyOfAssignment, AfterEquals, Put;
    var line := [Assignment(k, v)] + after;
    assert line[1..] == after && line[0] == Assignment(k, v);
  }

  lemma AssignmentIsDashed(k: Key, v: string)
    requires !k.Other?
    ensures StartsDashDash(Assignment(k, v)) && StartsDashDash(Flag(k))
  {
    FlagShape(k);
    hide Flag;
  }

  /**
   * `--flag value` and `--flag=value` are the same argument at any position: the last one of a key is the value
   * read, all other keys are read as without it, and neither form leaves a token behind.
   */
  lemma {:induction false} BothFormsRead(k: Key, v: string, before: seq<string>, after: seq<string>, l: Key)
    requires !k.Other? && !StartsDashDash(v)
    ensures var two, one := before + [Flag(k), v] + after, before + [Assignment(k, v)] + after;
            Parse(two) == Parse(one) && Strip(two) == Strip(one) && Unread(two) == Unread(one)
    ensures Lookup(Parse(before + [Flag(k), v]), l) == if l == k then Some(v) else Lookup(Parse(before), l)
    ensures Strip(before + [Flag(k), v]) == Strip(before) && Unread(before + [Flag(k), v]) == Unread(before)
  {
    AssignmentIsDashed(k, v);
    hide Flag, Assignment, ParseFrom, Strip, Unread, Put, Lookup;
    var c := Parse(before);
    assert before + [Flag(k), v] + after == before + ([Flag(k), v] + after);
    assert before + [Assignment(k, v)] + after == before + ([Assignment(k, v)] + after);
    InPieces(before, [Flag(k), v] + after);
    InPieces(before, [Assignment(k, v)] + after);
    FlagReads(k, v, after, c);
    AssignmentReads(k, v, after, c);
    InPieces(before, [Flag(k), v]);
    FlagReads(k, v, [], c);
    assert [Flag(k), v] + [] == [Flag(k), v];
    ReadsNothing(Put(c, k, v));
    assert Strip(before) + [] == Strip(before) && Unread(before) + [] == Unread(before);
    PutFacts(c, k, v, l);
  }

  lemma ReadsNothing(c: seq<Entry>)
    ensures ParseFrom([], c) == c && Strip([]) == [] && Unread([]) == []
  {
  }

  /** A flag without a value is taken off the line and says nothing. */
  lemma {:induction false} BareFlagReadsNothing(k: Key, before: seq<string>, after: seq<string>)
    requires !k.Other? && Fresh(after)
    ensures var line := before + [Flag(k)] + after;
            Parse(line) == Parse(before + after) && Strip(line) == Strip(before + after) &&
            Unread(line) == Unread(before + after)
  {
    FlagIsOwn(k);
    hide Flag;
    var line := [Flag(k)] + after;
    assert before + [Flag(k)] + after == before + line;
    assert line[1..] == after && line[0] == Flag(k);
    InPieces(before, line);
    InPieces(before, after);
    hide IsFlag, KeyOfFlag, TuningPrefix, StartsDashDash, KeyOfAssignment;
  }

  // ----- The laws of one override

  /** Reading back gives the override without empty values; all other arguments stay as they were, in order. */
  lemma OverrideReadsBack(args: seq<string>, newer: seq<Entry>)
    requires UniqueKeys(newer)
    ensures Parse(Overridden(args, newer)) == Shown(Updated(Parse(args), newer))
    ensures Strip(Overridden(args, newer)) == Strip(args)
  {
    var u := Updated(Parse(args), newer);
    ParseUnique(args, []);
    UpdatedFacts(Parse(args), newer, MaxNumSeqs);
    ShownFacts(u, MaxNumSeqs);
    hide ParseFrom, Strip, Print, Updated, Shown;
    StripIsStatic(args);
    StaticPrefix(Strip(args), Print(u));
    StaticParsesToNothing(Strip(args), Print(u), []);
    PrintedLine(u, []);
    assert [] + Shown(u) == Shown(u);
    UpdatedAppends([], Shown(u));
  }

  /** The value of a key after an override. */
  function OverriddenValue(args: seq<string>, newer: seq<Entry>, k: Key): Option<string> {
    var v := if Lookup(newer, k).Some? then Lookup(newer, k) else Lookup(Parse(args), k);
    if k.Other? || v == Some("") then None else v
  }

  lemma OverrideLookup(args: seq<string>, newer: seq<Entry>, k: Key)
    requires UniqueKeys(newer)
    ensures Lookup(Parse(Overridden(args, newer)), k) == OverriddenValue(args, newer, k)
  {
    hide ParseFrom, Strip, Print, Updated, Shown, Lookup;
    OverrideReadsBack(args, newer);
    ParseUnique(args, []);
    UpdatedFacts(Parse(args), newer, k);
    ShownFacts(Updated(Parse(args), newer), k);
  }

  /** Key by key, two overrides are one override by the combined configuration, empty values included. */
  lemma OverrideTwiceLookup(args: seq<string>, c1: seq<Entry>, c2: seq<Entry>, k: Key)
    requires UniqueKeys(c1) && UniqueKeys(c2)
    ensures UniqueKeys(Updated(c1, c2))
    ensures Lookup(Parse(Overridden(Overridden(args, c1), c2)), k) ==
            Lookup(Parse(Overridden(args, Updated(c1, c2))), k)
  {
    hide ParseFrom, Strip, Print, Updated, Shown, Lookup, Overridden;
    UpdatedFacts(c1, c2, k);
    OverrideLookup(args, c1, k);
    OverrideLookup(Overridden(args, c1), c2, k);
    OverrideLookup(args, Updated(c1, c2), k);
  }

  /** Without empty values the two command lines are the same, token by token. */
  lemma OverrideTwice(args: seq<string>, c1: seq<Entry>, c2: seq<Entry>)
    requires UniqueKeys(c1) && UniqueKeys(c2)
    requires forall e | e in Updated(Parse(args), c1) :: Printable(e)
    ensures Overridden(Overridden(args, c1), c2) == Overridden(args, Updated(c1, c2))
  {
    OverrideReadsBack(args, c1);
    ShownOfPrintable(Updated(Parse(args), c1));
    UpdatedAssociative(Parse(args), c1, c2);
  }

  /** Overriding by nothing normalises the command line once and for all. */
  lemma OverrideByNothing(args: seq<string>)
    ensures Overridden(Overridden(args, []), []) == Overridden(args, [])
  {
    OverrideReadsBack(args, []);
    PrintShown(Parse(args));
  }

  lemma {:induction false} PrintShown(c: seq<Entry>)
    ensures Print(Shown(c)) == Print(c)
    decreases |c|
  {
    hide Assignment;
    if c != [] {
      PrintShown(c[1..]);
      if Printable(c[0]) {
        assert Shown(c)[1..] == Shown(c[1..]);
      }
    }
  }

  // ----- Tokens that only start like a tuning flag

  predicate Lookalike(t: string) {
    TuningPrefix(t) && !IsFlag(t) && KeyOfAssignment(t).None?
  }

  function WithoutLookalikes(ts: seq<string>): seq<string> {
    if ts == [] then []
    else (if Lookalike(ts[0]) then [] else [ts[0]]) + WithoutLookalikes(ts[1..])
  }

  /** Stripping loses, of the tokens that the parser does not read, exactly those that start like a flag. */
  lemma {:induction false} StripKeeps(args: seq<string>)
    ensures Strip(args) == WithoutLookalikes(Unread(args))
    decreases |args|
  {
    hide TuningPrefix, IsFlag, KeyOfAssignment, Width, Lookalike;
    if args != [] {
      StripKeeps(args[Width(args)..]);
      FlagHasPrefixIf(args[0]);
    }
  }

  lemma FlagHasPrefixIf(t: string)
    ensures IsFlag(t) || KeyOfAssignment(t).Some? ==> TuningPrefix(t)
    ensures Lookalike(t) <==> TuningPrefix(t) && !IsFlag(t) && KeyOfAssignment(t).None?
  {
    hide TuningPrefix, IsFlag, KeyOfAssignment;
    if IsFlag(t) || KeyOfAssignment(t).Some? { FlagHasPrefix(t); }
  }

  lemma {:induction false} WithoutLookalikesExactly(ts: seq<string>)
    ensures |WithoutLookalikes(ts)| <= |ts|
    ensures WithoutLookalikes(ts) == ts <==> forall t | t in ts :: !Lookalike(t)
  {
    hide Lookalike;
    if ts != [] {
      WithoutLookalikesExactly(ts[1..]);
      assert forall t :: t in ts <==> t == ts[0] || t in ts[1..];
      if Lookalike(ts[0]) {
        assert |WithoutLookalikes(ts)| < |ts|;
      } else {
        assert WithoutLookalikes(ts)[1..] == WithoutLookalikes(ts[1..]);
      }
    }
  }

  /** The parser never takes a lookalike, wherever it stands: as a value it would have to follow a flag without "--". */
  lemma {:induction false} LookalikesAreUnread(args: seq<string>, t: string)
    requires Lookalike(t)
    ensures t in Unread(args) <==> t in args
    decreases |args|
  {
    LookalikeIsDashed(t);
    hide TuningPrefix, IsFlag, KeyOfAssignment, Lookalike, StartsDashDash;
    if args != [] {
      var rest := args[Width(args)..];
      LookalikesAreUnread(rest, t);
      assert args == args[..Width(args)] + rest;
      assert forall x :: x in args <==> x in args[..Width(args)] || x in rest;
      if Width(args) == 2 { assert args[..2] == [args[0], args[1]]; } else { assert args[..1] == [args[0]]; }
    }
  }

  lemma LookalikeIsDashed(t: string)
    requires Lookalike(t)
    ensures StartsDashDash(t) && !IsFlag(t) && KeyOfAssignment(t).None? && TuningPrefix(t)
  {
    FlagShape(MaxNumSeqs);
    FlagShape(GpuMemoryUtilization);
    FlagShape(MaxModelLen);
    FlagShape(MaxNumBatchedTokens);
    hide Flag;
  }

  /** What the parser reads of the overridden line is exactly what was printed; the rest is the stripped line. */
  lemma {:induction false} OverrideUnread(args: seq<string>, newer: seq<Entry>)
    ensures Unread(Overridden(args, newer)) == Strip(args)
  {
    var u := Updated(Parse(args), newer);
    StripIsStatic(args);
    StaticIsUnread(Strip(args), Print(u));
    PrintedIsRead(u);
    assert Strip(args) + [] == Strip(args);
  }

  lemma {:induction false} StaticIsUnread(ts: seq<string>, rest: seq<string>)
    requires Static(ts)
    ensures Unread(ts + rest) == ts + Unread(rest)
    decreases |ts|
  {
    hide TuningPrefix, IsFlag, KeyOfAssignment;
    if ts == [] {
      assert ts + rest == rest;
    } else {
      FlagHasPrefixIf(ts[0]);
      assert ts[0] in ts && forall t :: t in ts[1..] ==> t in ts;
      assert (ts + rest)[1..] == ts[1..] + rest;
      StaticIsUnread(ts[1..], rest);
    }
  }

  lemma {:induction false} PrintedIsRead(c: seq<Entry>)
    ensures Unread(Print(c)) == []
    decreases |c|
  {
    hide Assignment, IsFlag, KeyOfAssignment;
    if c != [] {
      PrintedIsRead(c[1..]);
      if Printable(c[0]) {
        AssignmentFacts(c[0].key, c[0].value);
        assert Print(c)[1..] == Print(c[1..]);
      }
    }
  }

  /** An override keeps all that the parser does not read exactly when no token only starts like a tuning flag. */
  lemma {:induction false} OverrideKeepsUnread(args: seq<string>, newer: seq<Entry>)
    ensures Unread(Overridden(args, newer)) == Unread(args) <==> forall t | t in args :: !Lookalike(t)
  {
    OverrideUnread(args, newer);
    StripKeeps(args);
    WithoutLookalikesExactly(Unread(args));
    forall t | Lookalike(t) ensures t in Unread(args) <==> t in args {
      LookalikesAreUnread(args, t);
    }
    hide Unread, Strip, Overridden, Lookalike;
    assert (forall t | t in Unread(args) :: !Lookalike(t)) <==> forall t | t in args :: !Lookalike(t);
  }

  /** Any flag continued by anything but "=" is a lookalike, and so is lost by every override, wherever it stands. */
  lemma LookalikeFlagIsLost(k: Key, suffix: string, before: seq<string>, after: seq<string>, newer: seq<Entry>)
    requires !k.Other? && suffix != "" && suffix[0] != '='
    ensures var t := Flag(k) + suffix;
            && Lookalike(t) && t in Unread(before + [t] + after)
            && t !in Strip(before + [t] + after) && t !in Unread(Overridden(before + [t] + after, newer))
  {
    var t := Flag(k) + suffix;
    var args := before + [t] + after;
    LookalikeVersus(k, suffix, MaxNumSeqs);
    LookalikeVersus(k, suffix, GpuMemoryUtilization);
    LookalikeVersus(k, suffix, MaxModelLen);
    LookalikeVersus(k, suffix, MaxNumBatchedTokens);
    hide Flag, Assigns, Unread, Strip, Overridden;
    assert Lookalike(t);
    LookalikesAreUnread(args, t);
    StripIsStatic(args);
    OverrideUnread(args, newer);
  }

  lemma LookalikeVersus(k: Key, suffix: string, l: Key)
    requires suffix != "" && suffix[0] != '=' && !k.Other? && !l.Other?
    ensures var t := Flag(k) + suffix; t != Flag(l) && !Assigns(t, l) && (l == k ==> Starts(t, l))
  {
    var t := Flag(k) + suffix;
    FlagShape(k);
    FlagShape(l);
    hide Flag;
    assert Flag(k) <= t && t[|Flag(k)|] == suffix[0];
    AssignsStarts(t, l);
    if Flag(l) <= t { FlagsPrefixFree(k, l, t); }
  }
}
