/** The two custom-resource adapters as lenses onto the vLLM command line inside a resource. */
module Adapters {
  import opened JsonValues
  import opened PatchAlgebra
  import opened Args
  import opened Words

  datatype CrKind = InferenceService | LLMInferenceService

  const MAIN_CONTAINER := "main"
  const ADDITIONAL_ARGS := "VLLM_ADDITIONAL_ARGS"

  // ----- Dictionaries

  /** `d.get(k, {})` */
  function Sub(j: Json, k: string): Json {
    if j.Obj? && k in j.fields then j.fields[k] else EMPTY_OBJ
  }

  /** `d[k] = v` */
  function With(j: Json, k: string, v: Json): (r: Json)
    ensures r.Obj? && Field(r, k) == v
  {
    Obj((if j.Obj? then j.fields else map[])[k := v])
  }

  predicate AbsentOrObject(j: Json, k: string) {
    j.Obj? && (k in j.fields ==> j.fields[k].Obj?)
  }

  lemma WithTwice(j: Json, k: string, v: Json, w: Json)
    ensures With(With(j, k, v), k, w) == With(j, k, w)
  {
  }

  lemma SubWith(j: Json, k: string, v: Json)
    ensures Sub(With(j, k, v), k) == v
  {
  }

  // ----- InferenceService: a list of arguments

  predicate StrList(j: Json) {
    j.Arr? && forall i | 0 <= i < |j.items| :: j.items[i].Str?
  }

  function Strings(j: Json): (r: seq<string>)
    requires StrList(j)
  {
    seq(|j.items|, i requires 0 <= i < |j.items| => j.items[i].s)
  }

  function FromStrings(ss: seq<string>): (r: Json)
    ensures StrList(r) && Strings(r) == ss
  {
    var r := Arr(seq(|ss|, i requires 0 <= i < |ss| => Str(ss[i])));
    assert Strings(r) == ss;
    r
  }

  function Predictor(cr: Json): Json {
    Sub(Sub(cr, "spec"), "predictor")
  }

  function Model(cr: Json): Json {
    Sub(Predictor(cr), "model")
  }

  /** What the adapter's chained `get`s and token tests demand of the resource. */
  predicate IsvcShape(cr: Json) {
    && AbsentOrObject(cr, "spec") && AbsentOrObject(Sub(cr, "spec"), "predictor")
    && AbsentOrObject(Predictor(cr), "model")
    && (Field(Model(cr), "args").Null? || StrList(Field(Model(cr), "args")))
  }

  function IsvcArgs(cr: Json): seq<string>
    requires IsvcShape(cr)
  {
    var args := Field(Model(cr), "args");
    if args.Null? then [] else Strings(args)
  }

  function IsvcWithArgs(cr: Json, args: seq<string>): Json {
    With(cr, "spec", With(Sub(cr, "spec"), "predictor",
      With(Predictor(cr), "model", With(Model(cr), "args", FromStrings(args)))))
  }

  // ----- LLMInferenceService: one string in an environment variable of the main container

  predicate ObjList(j: Json) {
    j.Arr? && forall i | 0 <= i < |j.items| :: j.items[i].Obj?
  }

  function Called(name: string): Json {
    Obj(map["name" := Str(name)])
  }

  /** The first item of that name. */
  function FindNamed(items: seq<Json>, name: string): (r: Option<nat>)
    ensures r.Some? ==> r.value < |items| && Field(items[r.value], "name") == Str(name)
    ensures r.Some? ==> forall i | 0 <= i < r.value :: Field(items[i], "name") != Str(name)
    ensures r.None? ==> forall i | 0 <= i < |items| :: Field(items[i], "name") != Str(name)
  {
    if items == [] then None
    else if Field(items[0], "name") == Str(name) then Some(0)
    else match FindNamed(items[1..], name) case None => None case Some(i) => Some(i + 1)
  }

  /** The first item of that name rewritten, or a new item called so rewritten and appended. */
  function Upsert(items: seq<Json>, name: string, key: string, v: Json): seq<Json> {
    match FindNamed(items, name)
    case Some(i) => items[i := With(items[i], key, v)]
    case None => items + [With(Called(name), key, v)]
  }

  /** The member `key` of the first item of that name; None when there is no such item. */
  function MemberOf(items: seq<Json>, name: string, key: string): Json {
    match FindNamed(items, name)
    case Some(i) => Field(items[i], key)
    case None => Null
  }

  function ListOf(j: Json): seq<Json> {
    if j.Arr? then j.items else []
  }

  function Template(cr: Json): Json {
    Sub(Sub(cr, "spec"), "template")
  }

  function Containers(cr: Json): seq<Json> {
    ListOf(Field(Template(cr), "containers"))
  }

  function Env(cr: Json): seq<Json> {
    ListOf(MemberOf(Containers(cr), MAIN_CONTAINER, "env"))
  }

  predicate LlmShape(cr: Json) {
    && AbsentOrObject(cr, "spec") && AbsentOrObject(Sub(cr, "spec"), "template")
    && ("containers" in Template(cr).fields ==> ObjList(Template(cr).fields["containers"]))
    && (var env := MemberOf(Containers(cr), MAIN_CONTAINER, "env"); env.Null? || ObjList(env))
    && (var v := MemberOf(Env(cr), ADDITIONAL_ARGS, "value"); v.Null? || (v.Str? && PlainText(v.s)))
  }

  function AdditionalArgs(cr: Json): (s: string)
    requires LlmShape(cr)
    ensures PlainText(s)
  {
    var v := MemberOf(Env(cr), ADDITIONAL_ARGS, "value");
    if v.Null? then "" else v.s
  }

  function LlmWithValue(cr: Json, v: string): Json {
    With(cr, "spec", With(Sub(cr, "spec"), "template", With(Template(cr), "containers",
      Arr(Upsert(Containers(cr), MAIN_CONTAINER, "env", Arr(Upsert(Env(cr), ADDITIONAL_ARGS, "value", Str(v))))))))
  }

  // ----- Both adapters

  predicate WellShaped(kind: CrKind, cr: Json) {
    if kind.InferenceService? then IsvcShape(cr) else LlmShape(cr)
  }

  function ArgsOf(kind: CrKind, cr: Json): seq<string>
    requires WellShaped(kind, cr)
  {
    if kind.InferenceService? then IsvcArgs(cr) else Split(AdditionalArgs(cr))
  }

  function ReadArgs(kind: CrKind, cr: Json): seq<Entry>
    requires WellShaped(kind, cr)
  {
    Parse(ArgsOf(kind, cr))
  }

  function ReadExtraArgs(kind: CrKind, cr: Json): seq<string>
    requires WellShaped(kind, cr)
  {
    Strip(ArgsOf(kind, cr))
  }

  /** The new string is joined from a prefix that is itself joined and split again. */
  function NewValue(before: string, newer: seq<Entry>): string {
    Join(Split(Join(Strip(Split(before)))) + Print(Updated(Parse(Split(before)), newer)))
  }

  function BuildArgsPatch(kind: CrKind, cr: Json, newer: seq<Entry>): Json
    requires WellShaped(kind, cr)
  {
    if kind.InferenceService? then
      One("spec", One("predictor", One("model", One("args", FromStrings(Overridden(IsvcArgs(cr), newer))))))
    else
      One("spec", One("template", One("containers",
        Arr([With(Called(MAIN_CONTAINER), "env",
          Arr([With(Called(ADDITIONAL_ARGS), "value", Str(NewValue(AdditionalArgs(cr), newer)))]))]))))
  }

  function One(k: string, v: Json): Json {
    Obj(map[k := v])
  }

  /** The resource after `apply_args_to_cr` has edited it. */
  function Applied(kind: CrKind, cr: Json, newer: seq<Entry>): Json
    requires WellShaped(kind, cr)
  {
    if kind.InferenceService? then IsvcWithArgs(cr, Overridden(IsvcArgs(cr), newer))
    else LlmWithValue(cr, NewValue(AdditionalArgs(cr), newer))
  }

  /** Values that are single words, as a space-separated string demands. */
  predicate WordValues(c: seq<Entry>) {
    forall e | e in c :: e.value == "" || Word(e.value)
  }

  predicate Fits(kind: CrKind, newer: seq<Entry>) {
    UniqueKeys(newer) && (kind.LLMInferenceService? ==> WordValues(newer))
  }

  // ----- Words stay words

  lemma {:induction false} AfterEqualsIsSuffix(t: string)
    ensures exists i: nat :: i <= |t| && AfterEquals(t) == t[i..]
    decreases |t|
  {
    if t == "" {
      assert AfterEquals(t) == t[0..];
    } else if t[0] == '=' {
      assert AfterEquals(t) == t[1..];
    } else {
      AfterEqualsIsSuffix(t[1..]);
      var i: nat :| i <= |t[1..]| && AfterEquals(t[1..]) == t[1..][i..];
      assert t[1..][i..] == t[i + 1..];
    }
  }

  lemma WordSuffix(t: string)
    requires Word(t)
    ensures AfterEquals(t) == "" || Word(AfterEquals(t))
  {
    AfterEqualsIsSuffix(t);
    var i: nat :| i <= |t| && AfterEquals(t) == t[i..];
    forall c | c in t[i..] ensures c in t {
      var j :| 0 <= j < |t[i..]| && t[i..][j] == c;
      assert t[i + j] == c;
    }
  }

  lemma {:induction false} PutWordValue(c: seq<Entry>, k: Key, v: string)
    requires WordValues(c) && (v == "" || Word(v))
    ensures WordValues(Put(c, k, v))
    decreases |c|
  {
    hide Word;
    if c != [] && c[0].key != k {
      PutWordValue(c[1..], k, v);
    }
  }

  lemma {:induction false} ParsedWords(args: seq<string>, c: seq<Entry>)
    requires AllWords(args) && WordValues(c)
    ensures WordValues(ParseFrom(args, c))
    decreases |args|
  {
    hide IsFlag, StartsDashDash, KeyOfAssignment, AfterEquals, Put, Flag, Word, WordValues;
    if args != [] {
      var t, rest := args[0], args[Width(args)..];
      assert Word(t);
      assert AllWords(rest) by {
        assert forall x | x in rest :: x in args;
      }
      if IsFlag(t) {
        if Width(args) == 2 {
          assert args[1] in args;
          PutWordValue(c, KeyOfFlag(t), args[1]);
          ParsedWords(rest, Put(c, KeyOfFlag(t), args[1]));
        } else {
          ParsedWords(rest, c);
        }
      } else if KeyOfAssignment(t).Some? {
        WordSuffix(t);
        PutWordValue(c, KeyOfAssignment(t).value, AfterEquals(t));
        ParsedWords(rest, Put(c, KeyOfAssignment(t).value, AfterEquals(t)));
      } else {
        ParsedWords(rest, c);
      }
    }
  }

  lemma {:induction false} UpdatedWords(c: seq<Entry>, d: seq<Entry>)
    requires WordValues(c) && WordValues(d)
    ensures WordValues(Updated(c, d))
    decreases |d|
  {
    hide Word, Put;
    if d != [] {
      PutWordValue(c, d[0].key, d[0].value);
      UpdatedWords(Put(c, d[0].key, d[0].value), d[1..]);
    }
  }

  lemma FlagIsWord(k: Key)
    requires !k.Other?
    ensures Word(Flag(k) + "=")
  {
    match k
    case MaxNumSeqs => assert Word("--max-num-seqs=");
    case GpuMemoryUtilization => UtilizationFlagIsWord();
    case MaxModelLen => assert Word("--max-model-len=");
    case MaxNumBatchedTokens => TokensFlagIsWord();
  }

  lemma UtilizationFlagIsWord()
    ensures Word("--gpu-memory-utilization=")
  {
  }

  lemma TokensFlagIsWord()
    ensures Word("--max-num-batched-tokens=")
  {
  }

  lemma {:induction false} PrintedWords(c: seq<Entry>)
    requires WordValues(c)
    ensures AllWords(Print(c))
    decreases |c|
  {
    hide Flag;
    if c != [] {
      PrintedWords(c[1..]);
      var e := c[0];
      if Printable(e) {
        FlagIsWord(e.key);
        var t := Assignment(e.key, e.value);
        assert Word(e.value);
        assert forall x | x in t :: x in Flag(e.key) + "=" || x in e.value;
        assert Word(t);
      }
    }
  }

  lemma {:induction false} StrippedWords(args: seq<string>)
    requires AllWords(args)
    ensures AllWords(Strip(args))
    decreases |args|
  {
    hide IsFlag, StartsDashDash, TuningPrefix, Flag, Word;
    if args != [] {
      assert forall x | x in args[Width(args)..] :: x in args;
      StrippedWords(args[Width(args)..]);
    }
  }

  /** The new string holds the overridden command line, word by word. */
  lemma NewValueWords(before: string, newer: seq<Entry>)
    requires PlainText(before) && WordValues(newer)
    ensures AllWords(Overridden(Split(before), newer))
    ensures NewValue(before, newer) == Join(Overridden(Split(before), newer))
    ensures PlainText(NewValue(before, newer)) && Split(NewValue(before, newer)) == Overridden(Split(before), newer)
  {
    var parts := Split(before);
    SplitIsWords(before);
    hide Split, Join, Strip, Print, Updated, ParseFrom, Word;
    StrippedWords(parts);
    ParsedWords(parts, []);
    UpdatedWords(Parse(parts), newer);
    PrintedWords(Updated(Parse(parts), newer));
    SplitJoin(Strip(parts));
    SplitJoin(Overridden(parts, newer));
    JoinIsPlain(Overridden(parts, newer));
  }

  // ----- Lens laws of the two carriers

  lemma IsvcWritten(cr: Json, args: seq<string>)
    requires IsvcShape(cr)
    ensures IsvcShape(IsvcWithArgs(cr, args)) && IsvcArgs(IsvcWithArgs(cr, args)) == args
  {
  }

  lemma IsvcWrittenTwice(cr: Json, a: seq<string>, b: seq<string>)
    ensures IsvcWithArgs(IsvcWithArgs(cr, a), b) == IsvcWithArgs(cr, b)
  {
    var once := IsvcWithArgs(cr, a);
    var model := With(Model(cr), "args", FromStrings(a));
    var predictor := With(Predictor(cr), "model", model);
    var spec := With(Sub(cr, "spec"), "predictor", predictor);
    SubWith(cr, "spec", spec);
    SubWith(Sub(cr, "spec"), "predictor", predictor);
    SubWith(Predictor(cr), "model", model);
    hide With, Sub, FromStrings;
    WithTwice(Model(cr), "args", FromStrings(a), FromStrings(b));
    var model' := With(Model(cr), "args", FromStrings(b));
    WithTwice(Predictor(cr), "model", model, model');
    var predictor' := With(Predictor(cr), "model", model');
    WithTwice(Sub(cr, "spec"), "predictor", predictor, predictor');
    WithTwice(cr, "spec", spec, With(Sub(cr, "spec"), "predictor", predictor'));
  }

  lemma FirstNamed(items: seq<Json>, name: string, i: nat)
    requires i < |items| && Field(items[i], "name") == Str(name)
    requires forall j | 0 <= j < i :: Field(items[j], "name") != Str(name)
    ensures FindNamed(items, name) == Some(i)
  {
    hide Field;
  }

  /** A written item is found again, and writing twice is writing the last. */
  lemma {:induction false} UpsertFacts(items: seq<Json>, name: string, key: string, v: Json, w: Json)
    requires key != "name"
    ensures MemberOf(Upsert(items, name, key, v), name, key) == v
    ensures ObjList(Arr(items)) ==> ObjList(Arr(Upsert(items, name, key, v)))
    ensures Upsert(Upsert(items, name, key, v), name, key, w) == Upsert(items, name, key, w)
  {
    var at := FindNamed(items, name);
    var i := if at.Some? then at.value else |items|;
    var held := if at.Some? then items[i] else Called(name);
    var once := Upsert(items, name, key, v);
    assert once[i] == With(held, key, v) && Field(once[i], "name") == Str(name);
    assert forall j | 0 <= j < i :: once[j] == items[j];
    FirstNamed(once, name, i);
    WithTwice(held, key, v, w);
    hide With, Field, FindNamed;
    assert Upsert(once, name, key, w) == once[i := With(held, key, w)];
  }

  lemma {:induction false} LlmWritten(cr: Json, v: string)
    requires LlmShape(cr) && PlainText(v)
    ensures LlmShape(LlmWithValue(cr, v)) && AdditionalArgs(LlmWithValue(cr, v)) == v
  {
    var env := Upsert(Env(cr), ADDITIONAL_ARGS, "value", Str(v));
    var list := Upsert(Containers(cr), MAIN_CONTAINER, "env", Arr(env));
    UpsertFacts(Env(cr), ADDITIONAL_ARGS, "value", Str(v), Null);
    UpsertFacts(Containers(cr), MAIN_CONTAINER, "env", Arr(env), Null);
    hide Upsert, MemberOf, PlainText;
    var r := LlmWithValue(cr, v);
    assert Template(r) == With(Template(cr), "containers", Arr(list));
    assert Containers(r) == list && Env(r) == env;
  }

  lemma LlmWrittenTwice(cr: Json, v: string, w: string)
    ensures LlmWithValue(LlmWithValue(cr, v), w) == LlmWithValue(cr, w)
  {
    var env := Upsert(Env(cr), ADDITIONAL_ARGS, "value", Str(v));
    var env' := Upsert(Env(cr), ADDITIONAL_ARGS, "value", Str(w));
    UpsertFacts(Env(cr), ADDITIONAL_ARGS, "value", Str(v), Str(w));
    UpsertFacts(Containers(cr), MAIN_CONTAINER, "env", Arr(env), Arr(env'));
    var list := Upsert(Containers(cr), MAIN_CONTAINER, "env", Arr(env));
    var list' := Upsert(Containers(cr), MAIN_CONTAINER, "env", Arr(env'));
    var template := With(Template(cr), "containers", Arr(list));
    var spec := With(Sub(cr, "spec"), "template", template);
    SubWith(cr, "spec", spec);
    SubWith(Sub(cr, "spec"), "template", template);
    hide With, Sub, Upsert, MemberOf;
    var once := LlmWithValue(cr, v);
    assert Template(once) == template && Containers(once) == list && Env(once) == env;
    var template' := With(Template(cr), "containers", Arr(list'));
    WithTwice(Template(cr), "containers", Arr(list), Arr(list'));
    WithTwice(Sub(cr, "spec"), "template", template, template');
    WithTwice(cr, "spec", spec, With(Sub(cr, "spec"), "template", template'));
  }

  // ----- Lens laws of the adapters

  /** Applying keeps the shape, and leaves the overridden command line. */
  lemma AppliedArgs(kind: CrKind, cr: Json, newer: seq<Entry>)
    requires WellShaped(kind, cr) && Fits(kind, newer)
    ensures WellShaped(kind, Applied(kind, cr, newer))
    ensures ArgsOf(kind, Applied(kind, cr, newer)) == Overridden(ArgsOf(kind, cr), newer)
  {
    hide Overridden, IsvcShape, LlmShape, IsvcWithArgs, LlmWithValue, NewValue, Split;
    if kind.InferenceService? {
      IsvcWritten(cr, Overridden(IsvcArgs(cr), newer));
    } else {
      NewValueWords(AdditionalArgs(cr), newer);
      LlmWritten(cr, NewValue(AdditionalArgs(cr), newer));
    }
  }

  /** Reading after applying: the old configuration overridden, empty values dropped, other arguments unchanged. */
  lemma ApplyReadsBack(kind: CrKind, cr: Json, newer: seq<Entry>)
    requires WellShaped(kind, cr) && Fits(kind, newer)
    ensures WellShaped(kind, Applied(kind, cr, newer))
    ensures ReadArgs(kind, Applied(kind, cr, newer)) == Shown(Updated(ReadArgs(kind, cr), newer))
    ensures ReadExtraArgs(kind, Applied(kind, cr, newer)) == ReadExtraArgs(kind, cr)
    ensures var after := Applied(kind, cr, newer);
            forall k :: Lookup(ReadArgs(kind, after), k) == OverriddenValue(ArgsOf(kind, cr), newer, k)
  {
    hide WellShaped, Applied, ArgsOf, Overridden, Parse, Strip, Shown, Updated, Lookup, OverriddenValue;
    AppliedArgs(kind, cr, newer);
    OverrideReadsBack(ArgsOf(kind, cr), newer);
    forall k
      ensures Lookup(ReadArgs(kind, Applied(kind, cr, newer)), k) == OverriddenValue(ArgsOf(kind, cr), newer, k)
    {
      OverrideLookup(ArgsOf(kind, cr), newer, k);
    }
  }

  predicate NoLookalikes(args: seq<string>) {
    forall t | t in args :: !Lookalike(t)
  }

  /** All arguments but those the parser reads survive an apply exactly when none only starts like a tuning flag. */
  lemma {:induction false} ApplyKeepsOtherArgs(kind: CrKind, cr: Json, newer: seq<Entry>)
    requires WellShaped(kind, cr) && Fits(kind, newer)
    ensures WellShaped(kind, Applied(kind, cr, newer))
    ensures Unread(ArgsOf(kind, Applied(kind, cr, newer))) == Strip(ArgsOf(kind, cr))
    ensures Unread(ArgsOf(kind, Applied(kind, cr, newer))) == Unread(ArgsOf(kind, cr)) <==>
            NoLookalikes(ArgsOf(kind, cr))
  {
    hide WellShaped, Applied, ArgsOf, Unread, Strip, Overridden, Lookalike;
    AppliedArgs(kind, cr, newer);
    OverrideUnread(ArgsOf(kind, cr), newer);
    OverrideKeepsUnread(ArgsOf(kind, cr), newer);
  }

  /** Two applies of non-empty values leave the very resource that one apply of the combined values leaves. */
  lemma ApplyTwice(kind: CrKind, cr: Json, c1: seq<Entry>, c2: seq<Entry>)
    requires WellShaped(kind, cr) && Fits(kind, c1) && Fits(kind, c2)
    requires forall e | e in Updated(ReadArgs(kind, cr), c1) :: Printable(e)
    ensures WellShaped(kind, Applied(kind, cr, c1))
    ensures Applied(kind, Applied(kind, cr, c1), c2) == Applied(kind, cr, Updated(c1, c2))
  {
    AppliedArgs(kind, cr, c1);
    var args := ArgsOf(kind, cr);
    OverrideTwice(args, c1, c2);
    UpdatedFacts(c1, c2, MaxNumSeqs);
    hide Overridden, IsvcShape, LlmShape, IsvcWithArgs, LlmWithValue, NewValue, Split, Updated, Shown, Parse;
    if kind.InferenceService? {
      IsvcWrittenTwice(cr, Overridden(args, c1), Overridden(args, Updated(c1, c2)));
    } else {
      var v1 := NewValue(AdditionalArgs(cr), c1);
      UpdatedWords(c1, c2);
      NewValueWords(AdditionalArgs(cr), c1);
      NewValueWords(AdditionalArgs(cr), Updated(c1, c2));
      LlmWritten(cr, v1);
      NewValueWords(v1, c2);
      LlmWrittenTwice(cr, v1, NewValue(v1, c2));
    }
  }

  // ----- Clean bodies for create

  const SERVER_METADATA: set<string> :=
    {"resourceVersion", "uid", "creationTimestamp", "generation", "managedFields"}

  function CleanForCreate(cr: Json): Json {
    if !cr.Obj? then cr
    else
      var top := if "metadata" in cr.fields && cr.fields["metadata"].Obj?
                 then cr.fields["metadata" := Obj(cr.fields["metadata"].fields - SERVER_METADATA)]
                 else cr.fields;
      Obj(top - (SERVER_METADATA + {"status"}))
  }

  /** Cleaning is done once, and keeps the specification. */
  lemma CleanFacts(cr: Json)
    requires cr.Obj?
    ensures CleanForCreate(cr).Obj?
    ensures CleanForCreate(CleanForCreate(cr)) == CleanForCreate(cr)
    ensures Field(CleanForCreate(cr), "spec") == Field(cr, "spec") && Sub(CleanForCreate(cr), "spec") == Sub(cr, "spec")
    ensures "spec" in CleanForCreate(cr).fields <==> "spec" in cr.fields
  {
    var once := CleanForCreate(cr);
    var twice := CleanForCreate(once);
    assert "metadata" in once.fields <==> "metadata" in cr.fields;
    if "metadata" in cr.fields && cr.fields["metadata"].Obj? {
      var m := cr.fields["metadata"].fields;
      assert once.fields["metadata"] == Obj(m - SERVER_METADATA);
      assert m - SERVER_METADATA - SERVER_METADATA == m - SERVER_METADATA;
    }
    assert forall k :: k in once.fields ==> k in twice.fields && twice.fields[k] == once.fields[k];
    assert twice.fields == once.fields;
  }

  /** Nothing that the server manages. */
  predicate Unmanaged(cr: Json) {
    && cr.Obj? && cr.fields.Keys !! SERVER_METADATA + {"status"}
    && (Field(cr, "metadata").Obj? ==> Field(cr, "metadata").fields.Keys !! SERVER_METADATA)
  }

  /** Cleaning takes away what the server manages, and nothing else. */
  lemma CleanRemovesExactly(cr: Json)
    requires cr.Obj?
    ensures Unmanaged(CleanForCreate(cr))
    ensures forall k | k !in SERVER_METADATA + {"metadata", "status"} ::
              Field(CleanForCreate(cr), k) == Field(cr, k) && (k in CleanForCreate(cr).fields <==> k in cr.fields)
    ensures forall k | k !in SERVER_METADATA ::
              Field(Field(CleanForCreate(cr), "metadata"), k) == Field(Field(cr, "metadata"), k)
    ensures Unmanaged(cr) <==> CleanForCreate(cr) == cr
  {
    var clean := CleanForCreate(cr);
    if Field(cr, "metadata").Obj? {
      assert clean.fields["metadata"] == Obj(cr.fields["metadata"].fields - SERVER_METADATA);
    }
    if Unmanaged(cr) {
      if Field(cr, "metadata").Obj? { assert clean.fields["metadata"].fields == cr.fields["metadata"].fields; }
      assert clean.fields == cr.fields;
    }
  }

  /** Everything the adapters read survives cleaning. */
  lemma CleanKeepsArgs(kind: CrKind, cr: Json)
    requires WellShaped(kind, cr)
    ensures WellShaped(kind, CleanForCreate(cr)) && ArgsOf(kind, CleanForCreate(cr)) == ArgsOf(kind, cr)
  {
    CleanFacts(cr);
    hide CleanForCreate, Split, MemberOf, Sub, Field;
  }

  // ----- Server-managed fields do not matter

  lemma CleanWithSpec(cr: Json, spec: Json)
    requires cr.Obj?
    ensures CleanForCreate(With(cr, "spec", spec)) == With(CleanForCreate(cr), "spec", spec)
  {
    var lhs, rhs := CleanForCreate(With(cr, "spec", spec)), With(CleanForCreate(cr), "spec", spec);
    assert With(cr, "spec", spec).fields - {"spec"} == cr.fields - {"spec"};
    assert lhs.fields.Keys == rhs.fields.Keys;
    assert lhs.fields == rhs.fields;
  }

  /** Resources that differ in server-managed fields only are read alike and changed alike. */
  lemma CleanDetermines(kind: CrKind, a: Json, b: Json, newer: seq<Entry>)
    requires a.Obj? && b.Obj? && CleanForCreate(a) == CleanForCreate(b) && WellShaped(kind, a)
    ensures WellShaped(kind, b) && ArgsOf(kind, b) == ArgsOf(kind, a)
    ensures CleanForCreate(Applied(kind, a, newer)) == CleanForCreate(Applied(kind, b, newer))
    ensures Skeleton(kind, CleanForCreate(a)) == CleanForCreate(Skeleton(kind, a))
  {
    CleanFacts(a);
    CleanFacts(b);
    assert Sub(a, "spec") == Sub(b, "spec") && ("spec" in a.fields <==> "spec" in b.fields);
    hide CleanForCreate, Split, Overridden, NewValue, Upsert, MemberOf, FromStrings, With;
    assert WellShaped(kind, b);
    CleanWithSpec(a, Field(Applied(kind, a, newer), "spec"));
    CleanWithSpec(b, Field(Applied(kind, b, newer), "spec"));
    CleanWithSpec(a, Field(Skeleton(kind, a), "spec"));
  }

  /** The resource without any arguments: all that is not the command line. */
  function Skeleton(kind: CrKind, cr: Json): Json {
    if kind.InferenceService? then IsvcWithArgs(cr, []) else LlmWithValue(cr, "")
  }

  /** Applying changes the command line and nothing else. */
  lemma ApplyKeepsSkeleton(kind: CrKind, cr: Json, newer: seq<Entry>)
    requires WellShaped(kind, cr)
    ensures Skeleton(kind, Applied(kind, cr, newer)) == Skeleton(kind, cr)
  {
    hide IsvcWithArgs, LlmWithValue, NewValue, Overridden;
    if kind.InferenceService? {
      IsvcWrittenTwice(cr, Overridden(IsvcArgs(cr), newer), []);
    } else {
      LlmWrittenTwice(cr, NewValue(AdditionalArgs(cr), newer), "");
    }
  }
}
