/** A whole PATCH request compared with editing the resource in place, edit by edit. */
module Requests {
  import opened JsonValues
  import opened PatchAlgebra
  import opened PatchBody
  import opened Args
  import opened Words
  import opened Adapters
  import opened PatchVersusApply
  import opened Endpoint
  import opened ResourceRequests

  // ----- The edits in place

  /** One member of the predictor's model written. */
  function IsvcWith(cr: Json, k: string, v: Json): Json {
    With(cr, "spec", With(Sub(cr, "spec"), "predictor", With(Predictor(cr), "model", With(Model(cr), k, v))))
  }

  /** One member of the main container written. */
  function LlmWith(cr: Json, k: string, v: Json): Json {
    With(cr, "spec", With(Sub(cr, "spec"), "template", With(Template(cr), "containers",
      Arr(Upsert(Containers(cr), MAIN_CONTAINER, k, v)))))
  }

  function WithUri(kind: CrKind, cr: Json, uri: string): Json {
    if kind.InferenceService? then IsvcWith(cr, "storageUri", Str(uri))
    else With(cr, "spec", With(Sub(cr, "spec"), "model", With(Sub(Sub(cr, "spec"), "model"), "uri", Str(uri))))
  }

  /** The resources are merged: on the model by the server, inside the container list by the router. */
  function WithResources(kind: CrKind, cr: Json, r: Json): Json {
    if kind.InferenceService? then IsvcWith(cr, "resources", MergePatch(Field(Model(cr), "resources"), r))
    else LlmWith(cr, "resources", MergedInto(MemberOf(Containers(cr), MAIN_CONTAINER, "resources"), r))
  }

  function WithArgs(kind: CrKind, cr: Json, data: seq<Entry>): Json
    requires WellShaped(kind, cr)
  {
    if data == [] then cr else Applied(kind, cr, data)
  }

  /** The resource after all that a request asks for has been written in place. */
  function Edit(kind: CrKind, cr: Json, data: seq<Entry>, uri: Option<string>, resources: Option<Json>): Json
    requires WellShaped(kind, cr)
  {
    var a := WithArgs(kind, cr, data);
    var u := if uri.Some? then WithUri(kind, a, uri.value) else a;
    if resources.Some? then WithResources(kind, u, resources.value) else u
  }

  // ----- LLMInferenceService: one merge is one edit in place

  lemma OneMemberMerge(t: Json, k: string, v: Json)
    requires !v.Null?
    ensures MergedInto(t, One(k, v)) == With(t, k, MergedInto(Field(t, k), v))
  {
    MergedOverNull(v);
    assert MergedInto(t, One(k, v)).fields == With(t, k, MergedInto(Field(t, k), v)).fields;
  }

  /** What an edit in place needs of the list of containers. */
  predicate Listed(cr: Json) {
    LlmShape(cr) && Mergeable(Field(Template(cr), "containers"))
  }

  lemma SpecOfWith(cr: Json, spec: Json)
    ensures SpecOf(With(cr, "spec", spec)) == With(SpecOf(cr), "spec", spec)
  {
    assert SpecOf(With(cr, "spec", spec)).fields == With(SpecOf(cr), "spec", spec).fields;
  }

  /** Two nested members of the spec, merged. */
  lemma {:induction false} SpecMerge(cr: Json, a: string, b: string, v: Json)
    requires cr.Obj? && !v.Null? && (AbsentOrObject(cr, "spec"))
    ensures var spec, sub := Sub(cr, "spec"), Field(Sub(cr, "spec"), a);
            MergedInto(SpecOf(cr), One("spec", One(a, One(b, v)))) ==
            SpecOf(With(cr, "spec", With(spec, a, With(sub, b, MergedInto(Field(sub, b), v)))))
  {
    var spec := Sub(cr, "spec");
    assert Field(SpecOf(cr), "spec") == spec;
    hide MergedInto;
    OneMemberMerge(SpecOf(cr), "spec", One(a, One(b, v)));
    OneMemberMerge(spec, a, One(b, v));
    OneMemberMerge(Field(spec, a), b, v);
    SpecOfWith(cr, With(spec, a, With(Field(spec, a), b, MergedInto(Field(Field(spec, a), b), v))));
  }

  lemma {:induction false} MainMerge(cr: Json, k: string, v: Json)
    requires Listed(cr) && k != "name" && !v.Null?
    ensures MergedInto(SpecOf(cr), CarrierPatch(LLMInferenceService, k, v)) ==
            SpecOf(LlmWith(cr, k, MergedInto(MemberOf(Containers(cr), MAIN_CONTAINER, k), v)))
  {
    var list := Arr([With(Called(MAIN_CONTAINER), k, v)]);
    var sub := Field(Sub(cr, "spec"), "template");
    OneItemExpand(Field(Template(cr), "containers"), MAIN_CONTAINER, k, v,
                  MergedInto(MemberOf(Containers(cr), MAIN_CONTAINER, k), v));
    assert Field(sub, "containers") == Field(Template(cr), "containers");
    SpecMerge(cr, "template", "containers", list);
    var written := MergedInto(Field(sub, "containers"), list);
    assert With(sub, "containers", written) == With(Template(cr), "containers", written);
    hide MergedInto, Upsert, MemberOf, Mergeable;
  }

  lemma {:induction false} ArgsMerge(cr: Json, data: seq<Entry>)
    requires Listed(cr) && Patchable(LLMInferenceService, cr)
    ensures MergedInto(SpecOf(cr), BuildArgsPatch(LLMInferenceService, cr, data)) ==
            SpecOf(Applied(LLMInferenceService, cr, data))
  {
    var value := Str(NewValue(AdditionalArgs(cr), data));
    var envPatch := Arr([With(Called(ADDITIONAL_ARGS), "value", value)]);
    var env := MemberOf(Containers(cr), MAIN_CONTAINER, "env");
    OneItemExpand(env, ADDITIONAL_ARGS, "value", value, value) by {
      assert MergedInto(MemberOf(ListOf(env), ADDITIONAL_ARGS, "value"), value) == value;
    }
    assert MergedInto(env, envPatch) == Arr(Upsert(Env(cr), ADDITIONAL_ARGS, "value", value));
    hide MergedInto, Upsert, MemberOf, Mergeable, NewValue, LlmShape, With;
    MainMerge(cr, "env", envPatch);
  }

  lemma {:induction false} UriMerge(cr: Json, uri: string)
    requires LlmShape(cr)
    ensures MergedInto(SpecOf(cr), BuildModelUriPatch(LLMInferenceService, uri)) ==
            SpecOf(WithUri(LLMInferenceService, cr, uri))
  {
    var spec := Sub(cr, "spec");
    SpecMerge(cr, "model", "uri", Str(uri));
    assert MergedInto(Field(Field(spec, "model"), "uri"), Str(uri)) == Str(uri);
    assert With(Field(spec, "model"), "uri", Str(uri)) == With(Sub(spec, "model"), "uri", Str(uri));
    hide MergedInto, LlmShape;
  }

  // ----- What an edit in place keeps

  /** Writing another member of an item keeps the names distinct, and every other member of it. */
  lemma {:induction false} UpsertKeeps(list: Json, name: string, k: string, v: Json, j: string)
    requires Mergeable(list) && k != "name" && j != k && j != "name"
    ensures Mergeable(Arr(Upsert(ListOf(list), name, k, v))) && ObjList(Arr(Upsert(ListOf(list), name, k, v)))
    ensures MemberOf(Upsert(ListOf(list), name, k, v), name, j) == MemberOf(ListOf(list), name, j)
  {
    var items := ListOf(list);
    var at := FindNamed(items, name);
    var i := if at.Some? then at.value else |items|;
    var after := Upsert(items, name, k, v);
    assert forall x | 0 <= x < |after| && x != i :: after[x] == items[x];
    assert forall x | 0 <= x < |items| :: HasName(items[x]);
    assert after[i] == With(if at.Some? then items[i] else Called(name), k, v);
    assert Field(after[i], "name") == Str(name) && HasName(after[i]);
    FirstNamed(after, name, i);
    assert IsNamedList(Arr(after));
    forall x, y | 0 <= x < y < |after| && HasName(after[y]) ensures !NameIs(after[x], NameOf(after[y])) {
      if x == i { assert Field(after[y], "name") != Str(name) by { OthersNamed(items, at, name, y); } }
      if y == i { assert Field(after[x], "name") != Str(name); }
    }
  }

  lemma OthersNamed(items: seq<Json>, at: Option<nat>, name: string, y: nat)
    requires DistinctNames(items) && at.Some? && at.value < y < |items| && HasName(items[y])
    requires HasName(items[at.value]) && Field(items[at.value], "name") == Str(name)
    ensures Field(items[y], "name") != Str(name)
  {
    assert !NameIs(items[at.value], NameOf(items[y]));
  }

  /** `spec.predictor.model.storageUri` or `spec.model.uri`. */
  function UriOf(kind: CrKind, cr: Json): Json {
    if kind.InferenceService? then Field(Model(cr), "storageUri")
    else Field(Field(Field(cr, "spec"), "model"), "uri")
  }

  lemma {:induction false} LlmWithKeeps(cr: Json, k: string, v: Json)
    requires Listed(cr) && k !in {"name", "env"}
    ensures var after := LlmWith(cr, k, v);
            && Listed(after) && AdditionalArgs(after) == AdditionalArgs(cr)
            && UriOf(LLMInferenceService, after) == UriOf(LLMInferenceService, cr)
  {
    var after := LlmWith(cr, k, v);
    var items := Upsert(Containers(cr), MAIN_CONTAINER, k, v);
    UpsertKeeps(Field(Template(cr), "containers"), MAIN_CONTAINER, k, v, "env");
    hide Upsert, MemberOf, Mergeable, PlainText;
    assert Template(after) == With(Template(cr), "containers", Arr(items));
    assert Containers(after) == items && Env(after) == Env(cr);
  }

  lemma {:induction false} AppliedListed(cr: Json, data: seq<Entry>)
    requires Listed(cr) && Fits(LLMInferenceService, data)
    ensures var after := Applied(LLMInferenceService, cr, data);
            && Listed(after) && ArgsOf(LLMInferenceService, after) == Overridden(ArgsOf(LLMInferenceService, cr), data)
            && UriOf(LLMInferenceService, after) == UriOf(LLMInferenceService, cr)
  {
    AppliedArgs(LLMInferenceService, cr, data);
    var value := NewValue(AdditionalArgs(cr), data);
    var env := Arr(Upsert(Env(cr), ADDITIONAL_ARGS, "value", Str(value)));
    UpsertKeeps(Field(Template(cr), "containers"), MAIN_CONTAINER, "env", env, "resources");
    var after := LlmWithValue(cr, value);
    var items := Upsert(Containers(cr), MAIN_CONTAINER, "env", env);
    hide Upsert, MemberOf, Mergeable, PlainText, NewValue, Split, Overridden;
    assert Template(after) == With(Template(cr), "containers", Arr(items));
  }

  lemma {:induction false} UriKeeps(cr: Json, uri: string)
    requires Listed(cr)
    ensures var after := WithUri(LLMInferenceService, cr, uri);
            && Listed(after) && AdditionalArgs(after) == AdditionalArgs(cr)
            && UriOf(LLMInferenceService, after) == Str(uri)
  {
    hide MemberOf, Mergeable, PlainText;
    var after := WithUri(LLMInferenceService, cr, uri);
    assert Template(after) == Template(cr);
    assert Containers(after) == Containers(cr) && Env(after) == Env(cr);
  }

  // ----- InferenceService: one patch is one edit in place

  lemma {:induction false} ModelPatch(cr: Json, k: string, v: Json)
    requires IsvcShape(cr) && !v.Null?
    ensures MergePatch(cr, CarrierPatch(InferenceService, k, v)) ==
            IsvcWith(cr, k, MergePatch(Field(Model(cr), k), v))
  {
    hide MergePatch;
    NestedPatch(cr, "spec", "predictor", "model", One(k, v));
    OneMemberPatch(Field(Predictor(cr), "model"), k, v);
    assert Field(Field(Predictor(cr), "model"), k) == Field(Model(cr), k);
    assert With(Field(Predictor(cr), "model"), k, MergePatch(Field(Model(cr), k), v)) ==
           With(Model(cr), k, MergePatch(Field(Model(cr), k), v));
  }

  lemma {:induction false} IsvcWithKeeps(cr: Json, k: string, v: Json, j: string)
    requires IsvcShape(cr) && (k == "args" ==> StrList(v))
    ensures IsvcShape(IsvcWith(cr, k, v))
    ensures Field(Model(IsvcWith(cr, k, v)), j) == if j == k then v else Field(Model(cr), j)
  {
    var after := IsvcWith(cr, k, v);
    assert Model(after) == With(Model(cr), k, v);
  }

  // ----- Patches one after another

  /** The server's object after the first `n` patches. */
  function Fold(t: Json, subs: seq<Json>, n: nat): Json
    requires n <= |subs|
  {
    if n == 0 then t else MergePatch(Fold(t, subs, n - 1), subs[n - 1])
  }

  /** Without named lists, the compiled body does what its sub-patches do one after another. */
  lemma {:induction false} BodyIsFold(t: Json, start: Json, subs: seq<Json>, n: nat)
    requires t.Obj? && n <= |subs| && Sequencable(start, subs) && forall p | p in subs :: p.Obj? && !HasNamedList(p)
    ensures MergePatch(t, Body(start, subs, n)) == Fold(t, subs, n) && Fold(t, subs, n).Obj?
    decreases n
  {
    hide Sequencable, DeepMerged, Compatible, ExpandNamedLists, HasNamedList, Working;
    if n == 0 {
      assert MergePatch(t, EMPTY_OBJ).fields == t.fields;
    } else {
      BodyIsFold(t, start, subs, n - 1);
      var w := Working(start, subs, n - 1);
      BodyCompatible(start, subs, n - 1, n - 1, w);
      NothingToExpand(subs[n - 1], w);
      CompatiblePatchesCompose(t, Body(start, subs, n - 1), subs[n - 1]);
    }
  }

  // ----- The request

  /** One patch of one kind of resource: by the server, or by the router on the spec. */
  predicate Does(kind: CrKind, before: Json, patch: Json, after: Json) {
    if kind.InferenceService? then MergePatch(before, patch) == after
    else MergedInto(SpecOf(before), patch) == SpecOf(after)
  }

  predicate Editable(kind: CrKind, cr: Json) {
    if kind.InferenceService? then IsvcShape(cr) else Listed(cr)
  }

  lemma EditableIsShaped(kind: CrKind, cr: Json)
    requires Editable(kind, cr)
    ensures WellShaped(kind, cr)
  {
  }

  lemma {:induction false} ArgsStep(kind: CrKind, cr: Json, data: seq<Entry>)
    requires Editable(kind, cr) && WellShaped(kind, cr) && Patchable(kind, cr) && Fits(kind, data)
    ensures var after := Applied(kind, cr, data);
            && Does(kind, cr, BuildArgsPatch(kind, cr, data), after) && Editable(kind, after)
            && WellShaped(kind, after) && ArgsOf(kind, after) == Overridden(ArgsOf(kind, cr), data)
            && UriOf(kind, after) == UriOf(kind, cr)
  {
    if kind.InferenceService? {
      var args := FromStrings(Overridden(IsvcArgs(cr), data));
      hide MergePatch, IsvcShape, FromStrings, Overridden, With;
      ModelPatch(cr, "args", args);
      AppliedArgs(kind, cr, data);
      IsvcWithKeeps(cr, "args", args, "storageUri");
    } else {
      hide MergedInto, LlmShape, Mergeable, Overridden, Applied, BuildArgsPatch, UriOf, Split, SpecOf;
      ArgsMerge(cr, data);
      AppliedListed(cr, data);
    }
  }

  lemma {:induction false} UriStep(kind: CrKind, cr: Json, uri: string)
    requires Editable(kind, cr) && WellShaped(kind, cr)
    ensures var after := WithUri(kind, cr, uri);
            && Does(kind, cr, BuildModelUriPatch(kind, uri), after) && Editable(kind, after)
            && WellShaped(kind, after) && ArgsOf(kind, after) == ArgsOf(kind, cr) && UriOf(kind, after) == Str(uri)
  {
    if kind.InferenceService? {
      hide MergePatch, IsvcShape, IsvcWith;
      ModelPatch(cr, "storageUri", Str(uri));
      IsvcWithKeeps(cr, "storageUri", Str(uri), "args");
      IsvcWithKeeps(cr, "storageUri", Str(uri), "storageUri");
      PlainPatch(Field(Model(cr), "storageUri"), uri);
    } else {
      UriKeeps(cr, uri);
      hide MergedInto, LlmShape, Mergeable, BuildModelUriPatch, UriOf, Split, SpecOf, WithUri;
      UriMerge(cr, uri);
    }
  }

  lemma PlainPatch(t: Json, v: string)
    ensures MergePatch(t, Str(v)) == Str(v)
  {
  }

  lemma {:induction false} ResourcesStep(kind: CrKind, cr: Json, r: Json)
    requires Editable(kind, cr) && WellShaped(kind, cr) && r.Obj?
    ensures var after := WithResources(kind, cr, r);
            && Does(kind, cr, BuildResourcesPatch(kind, r), after) && Editable(kind, after)
            && WellShaped(kind, after) && ArgsOf(kind, after) == ArgsOf(kind, cr)
            && UriOf(kind, after) == UriOf(kind, cr)
  {
    if kind.InferenceService? {
      var v := MergePatch(Field(Model(cr), "resources"), r);
      hide MergePatch, IsvcShape, IsvcWith;
      ModelPatch(cr, "resources", r);
      IsvcWithKeeps(cr, "resources", v, "args");
      IsvcWithKeeps(cr, "resources", v, "storageUri");
    } else {
      var v := MergedInto(MemberOf(Containers(cr), MAIN_CONTAINER, "resources"), r);
      LlmWithKeeps(cr, "resources", v);
      hide MergedInto, LlmShape, Mergeable, UriOf, Split, SpecOf, LlmWith, With, MemberOf;
      MainMerge(cr, "resources", r);
    }
  }

  /** The first `n` sub-patches lead to this resource. */
  predicate Leads(kind: CrKind, cr: Json, subs: seq<Json>, n: nat, after: Json)
    requires n <= |subs|
  {
    if kind.InferenceService? then Fold(cr, subs, n) == after else Edited(SpecOf(cr), subs, n) == SpecOf(after)
  }

  lemma LeadsOn(kind: CrKind, cr: Json, subs: seq<Json>, n: nat, x: Json, y: Json)
    requires n < |subs| && Leads(kind, cr, subs, n, x) && Does(kind, x, subs[n], y)
    ensures Leads(kind, cr, subs, n + 1, y)
  {
  }

  /** The first `n` sub-patches lead to this resource, which reads so. */
  predicate Reached(kind: CrKind, cr: Json, subs: seq<Json>, n: nat, x: Json, args: seq<string>, uri: Json) {
    && n <= |subs| && Leads(kind, cr, subs, n, x) && Editable(kind, x)
    && WellShaped(kind, x) && ArgsOf(kind, x) == args && UriOf(kind, x) == uri
  }

  lemma ArgsPart(kind: CrKind, cr: Json, subs: seq<Json>, data: seq<Entry>)
    requires Editable(kind, cr) && WellShaped(kind, cr) && Patchable(kind, cr) && Fits(kind, data)
    requires data != [] ==> subs != [] && subs[0] == BuildArgsPatch(kind, cr, data)
    ensures Reached(kind, cr, subs, if data == [] then 0 else 1, WithArgs(kind, cr, data),
                    if data == [] then ArgsOf(kind, cr) else Overridden(ArgsOf(kind, cr), data), UriOf(kind, cr))
  {
    assert Leads(kind, cr, subs, 0, cr);
    hide BuildArgsPatch, Does, Leads, Editable, WellShaped, ArgsOf, UriOf, Overridden, Applied, Patchable, Fits;
    if data != [] {
      ArgsStep(kind, cr, data);
      LeadsOn(kind, cr, subs, 0, cr, Applied(kind, cr, data));
    }
  }

  lemma UriPart(kind: CrKind, cr: Json, subs: seq<Json>, n: nat, x: Json, args: seq<string>, was: Json, uri: string)
    requires Reached(kind, cr, subs, n, x, args, was) && n < |subs| && subs[n] == BuildModelUriPatch(kind, uri)
    ensures Reached(kind, cr, subs, n + 1, WithUri(kind, x, uri), args, Str(uri))
  {
    hide BuildModelUriPatch, Does, Leads, Editable, WellShaped, ArgsOf, UriOf, WithUri;
    UriStep(kind, x, uri);
    LeadsOn(kind, cr, subs, n, x, WithUri(kind, x, uri));
  }

  lemma ResourcesPart(kind: CrKind, cr: Json, subs: seq<Json>, n: nat, x: Json, args: seq<string>, uri: Json, r: Json)
    requires Reached(kind, cr, subs, n, x, args, uri) && n < |subs| && subs[n] == BuildResourcesPatch(kind, r) && r.Obj?
    ensures Reached(kind, cr, subs, n + 1, WithResources(kind, x, r), args, uri)
  {
    hide BuildResourcesPatch, Does, Leads, Editable, WellShaped, ArgsOf, UriOf, WithResources;
    ResourcesStep(kind, x, r);
    LeadsOn(kind, cr, subs, n, x, WithResources(kind, x, r));
  }

  function ArgsAsked(kind: CrKind, cr: Json, data: seq<Entry>): seq<string>
    requires WellShaped(kind, cr)
  {
    if data == [] then ArgsOf(kind, cr) else Overridden(ArgsOf(kind, cr), data)
  }

  function UriAsked(kind: CrKind, cr: Json, uri: Option<string>): Json {
    if uri.Some? then Str(uri.value) else UriOf(kind, cr)
  }

  /** Everything asked for but the resources. */
  lemma {:induction false} ArgsAndUriLead(
    kind: CrKind, cr: Json, subs: seq<Json>, data: seq<Entry>, uri: Option<string>, i: nat, n: nat)
    requires Editable(kind, cr) && WellShaped(kind, cr) && Patchable(kind, cr) && Fits(kind, data)
    requires i == (if data == [] then 0 else 1) && n == i + (if uri.None? then 0 else 1) && n <= |subs|
    requires data != [] ==> subs[0] == BuildArgsPatch(kind, cr, data)
    requires uri.Some? ==> subs[i] == BuildModelUriPatch(kind, uri.value)
    ensures Reached(kind, cr, subs, n, Edit(kind, cr, data, uri, None), ArgsAsked(kind, cr, data),
                    UriAsked(kind, cr, uri))
  {
    hide BuildArgsPatch, BuildModelUriPatch, Editable, WellShaped, ArgsOf, UriOf, Overridden, Patchable, Fits, Reached,
         WithUri, WithArgs;
    ArgsPart(kind, cr, subs, data);
    if uri.Some? {
      UriPart(kind, cr, subs, i, WithArgs(kind, cr, data), ArgsAsked(kind, cr, data), UriOf(kind, cr), uri.value);
    }
  }

  lemma {:induction false} AllLead(
    kind: CrKind, cr: Json, subs: seq<Json>, data: seq<Entry>, uri: Option<string>, resources: Option<Json>,
    i: nat, n: nat)
    requires Editable(kind, cr) && WellShaped(kind, cr) && Patchable(kind, cr) && Fits(kind, data)
    requires resources.Some? ==> resources.value.Obj?
    requires i == (if data == [] then 0 else 1) && n == i + if uri.None? then 0 else 1
    requires |subs| == n + if resources.None? then 0 else 1
    requires data != [] ==> subs[0] == BuildArgsPatch(kind, cr, data)
    requires uri.Some? ==> subs[i] == BuildModelUriPatch(kind, uri.value)
    requires resources.Some? ==> subs[n] == BuildResourcesPatch(kind, resources.value)
    ensures Reached(kind, cr, subs, |subs|, Edit(kind, cr, data, uri, resources), ArgsAsked(kind, cr, data),
                    UriAsked(kind, cr, uri))
  {
    hide BuildArgsPatch, BuildModelUriPatch, BuildResourcesPatch, Editable, WellShaped, ArgsAsked, UriAsked, Patchable,
         Fits, Reached, WithUri, WithResources, WithArgs;
    ArgsAndUriLead(kind, cr, subs, data, uri, i, n);
    if resources.Some? {
      ResourcesPart(kind, cr, subs, n, Edit(kind, cr, data, uri, None), ArgsAsked(kind, cr, data),
                    UriAsked(kind, cr, uri), resources.value);
    }
  }

  /** All sub-patches of a request lead to the resource edited in place, which reads as asked for. */
  lemma {:induction false} EditsLead(
    kind: CrKind, cr: Json, data: seq<Entry>, uri: Option<string>, resources: Option<Json>)
    requires Editable(kind, cr) && WellShaped(kind, cr) && Patchable(kind, cr) && Fits(kind, data)
    requires resources.Some? ==> resources.value.Obj?
    ensures var subs := SubPatches(kind, cr, data, uri, resources);
            Reached(kind, cr, subs, |subs|, Edit(kind, cr, data, uri, resources), ArgsAsked(kind, cr, data),
                    UriAsked(kind, cr, uri))
  {
    var i := if data == [] then 0 else 1;
    Positions(kind, cr, data, uri, resources);
    hide *;
    AllLead(kind, cr, SubPatches(kind, cr, data, uri, resources), data, uri, resources, i,
            i + if uri.None? then 0 else 1);
  }

  // ----- On the server

  /** What an in-place edit needs of the resource and of the values asked for. */
  predicate Requestable(kind: CrKind, cr: Json, data: seq<Entry>) {
    WellShaped(kind, cr) && Tame(SpecOf(cr)) && Patchable(kind, cr) && Fits(kind, data)
  }

  lemma RequestableIsEditable(kind: CrKind, cr: Json, data: seq<Entry>)
    requires Requestable(kind, cr, data)
    ensures Editable(kind, cr) && cr.Obj?
  {
  }

  predicate WritesSpec(x: Json, y: Json) {
    y == With(x, "spec", Field(y, "spec"))
  }

  lemma WritesOn(x: Json, y: Json, z: Json)
    requires WritesSpec(x, y) && WritesSpec(y, z)
    ensures WritesSpec(x, z)
  {
    WithTwice(x, "spec", Field(y, "spec"), Field(z, "spec"));
  }

  lemma EachWritesSpec(kind: CrKind, cr: Json, data: seq<Entry>, uri: string, r: Json)
    ensures WellShaped(kind, cr) ==> WritesSpec(cr, Applied(kind, cr, data))
    ensures WritesSpec(cr, WithUri(kind, cr, uri)) && WritesSpec(cr, WithResources(kind, cr, r))
  {
    hide With, Upsert, MemberOf, NewValue, Overridden, FromStrings, WellShaped, MergedInto, MergePatch, Template,
         Containers, Env, Model, Predictor;
  }

  /** Every edit in place writes into the spec. */
  lemma {:induction false} EditIsSpec(
    kind: CrKind, cr: Json, data: seq<Entry>, uri: Option<string>, resources: Option<Json>)
    requires WellShaped(kind, cr) && (data != [] || uri.Some? || resources.Some?)
    ensures WritesSpec(cr, Edit(kind, cr, data, uri, resources))
  {
    hide WellShaped, Applied, WithUri, WithResources, WritesSpec;
    var a := WithArgs(kind, cr, data);
    EachWritesSpec(kind, cr, data, "", Null);
    var u := a;
    if uri.Some? {
      u := WithUri(kind, a, uri.value);
      EachWritesSpec(kind, a, data, uri.value, Null);
      if data != [] { WritesOn(cr, a, u); }
    }
    if resources.Some? {
      var r := WithResources(kind, u, resources.value);
      EachWritesSpec(kind, u, data, "", resources.value);
      if data != [] || uri.Some? { WritesOn(cr, u, r); }
    }
  }

  lemma SpecWritten(cr: Json, after: Json)
    requires cr.Obj? && WritesSpec(cr, after)
    ensures after == Obj(cr.fields["spec" := Field(SpecOf(after), "spec")])
  {
  }

  lemma NothingAsked(kind: CrKind, cr: Json, data: seq<Entry>, uri: Option<string>, resources: Option<Json>)
    requires WellShaped(kind, cr)
    ensures SubPatches(kind, cr, data, uri, resources) == [] <==> data == [] && uri.None? && resources.None?
  {
    hide BuildArgsPatch, BuildModelUriPatch, BuildResourcesPatch, WellShaped;
  }

  lemma {:induction false} IsvcPatched(cr: Json, data: seq<Entry>, uri: Option<string>, request: map<string, Tier>)
    requires Requestable(InferenceService, cr, data)
    requires forall p | p in SubPatches(InferenceService, cr, data, uri, RequestResources(request)) :: p.Obj?
    ensures Patched(InferenceService, cr, data, uri, request) ==
            Edit(InferenceService, cr, data, uri, RequestResources(request))
  {
    var kind, res := InferenceService, RequestResources(request);
    var subs := SubPatches(kind, cr, data, uri, res);
    RequestableIsEditable(kind, cr, data);
    PlainSubPatches(cr, data, uri, request);
    hide SubPatches, Tame, Sequencable, WellShaped, Editable, Body, Edit, HasNamedList, Patchable, Fits, MergePatch,
         CleanResources, SpecOf;
    RequestIsSequencable(kind, cr, data, uri, res);
    BodyIsFold(cr, SpecOf(cr), subs, |subs|);
    EditsLead(kind, cr, data, uri, res);
  }

  lemma {:induction false} PlainSubPatches(
    cr: Json, data: seq<Entry>, uri: Option<string>, request: map<string, Tier>)
    requires WellShaped(InferenceService, cr)
    ensures forall p | p in SubPatches(InferenceService, cr, data, uri, RequestResources(request)) :: !HasNamedList(p)
  {
    var kind := InferenceService;
    var args := FromStrings(Overridden(IsvcArgs(cr), data));
    PlainLeaf(args);
    NoNamedLists(request);
    if uri.Some? { PlainUri(uri.value); }
    hide HasNamedList, FromStrings, Overridden, CleanResources, WellShaped;
    assert BuildArgsPatch(kind, cr, data) == One("spec", One("predictor", One("model", One("args", args))));
  }

  lemma PlainUri(uri: string)
    ensures !HasNamedList(BuildModelUriPatch(InferenceService, uri))
  {
    var v := Str(uri);
    assert !HasNamedList(v);
    assert !HasNamedList(One("storageUri", v));
    assert !HasNamedList(One("model", One("storageUri", v)));
    assert !HasNamedList(One("predictor", One("model", One("storageUri", v))));
  }

  lemma {:induction false} LlmPatched(cr: Json, data: seq<Entry>, uri: Option<string>, request: map<string, Tier>)
    requires Requestable(LLMInferenceService, cr, data)
    requires SubPatches(LLMInferenceService, cr, data, uri, RequestResources(request)) != []
    requires forall p | p in SubPatches(LLMInferenceService, cr, data, uri, RequestResources(request)) :: p.Obj?
    ensures Patched(LLMInferenceService, cr, data, uri, request) ==
            Edit(LLMInferenceService, cr, data, uri, RequestResources(request))
  {
    var kind, res := LLMInferenceService, RequestResources(request);
    RequestableIsEditable(kind, cr, data);
    hide SubPatches, Tame, WellShaped, Editable, Body, Edit, Edited, Patchable, Fits, MergePatch, CleanResources,
         SpecOf, WritesSpec;
    RequestOnServer(kind, cr, data, uri, request);
    EditsLead(kind, cr, data, uri, res);
    NothingAsked(kind, cr, data, uri, res);
    EditIsSpec(kind, cr, data, uri, res);
    SpecWritten(cr, Edit(kind, cr, data, uri, res));
  }

  /**
   * One PATCH of a whole request is the same as editing the resource in place: the arguments, the model location, the
   * resources. The patched resource then reads the overridden command line and the location asked for, or the old ones.
   */
  lemma {:induction false} RequestIsEdit(
    kind: CrKind, cr: Json, data: seq<Entry>, uri: Option<string>, request: map<string, Tier>)
    requires Requestable(kind, cr, data)
    ensures forall p | p in SubPatches(kind, cr, data, uri, RequestResources(request)) :: p.Obj?
    ensures var after := Patched(kind, cr, data, uri, request);
            && after == Edit(kind, cr, data, uri, RequestResources(request))
            && WellShaped(kind, after)
            && ArgsOf(kind, after) == (if data == [] then ArgsOf(kind, cr) else Overridden(ArgsOf(kind, cr), data))
            && UriOf(kind, after) == if uri.Some? then Str(uri.value) else UriOf(kind, cr)
  {
    var res := RequestResources(request);
    RequestableIsEditable(kind, cr, data);
    SubPatchesAreObjects(kind, cr, data, uri, res);
    hide SubPatches, Tame, WellShaped, Editable, Body, Patchable, Fits, CleanResources, SpecOf, Leads,
         UriOf, ArgsOf, WithUri, WithResources, Applied;
    EditsLead(kind, cr, data, uri, res);
    NothingAsked(kind, cr, data, uri, res);
    if SubPatches(kind, cr, data, uri, res) == [] {
      assert MergePatch(cr, EMPTY_OBJ).fields == cr.fields;
      assert Body(SpecOf(cr), SubPatches(kind, cr, data, uri, res), 0) == EMPTY_OBJ by { NoBody(SpecOf(cr)); }
    } else {
      hide Patched, Edit;
      if kind.InferenceService? {
        IsvcPatched(cr, data, uri, request);
      } else {
        LlmPatched(cr, data, uri, request);
      }
    }
  }

  lemma NoBody(start: Json)
    ensures Body(start, [], 0) == EMPTY_OBJ
  {
  }
}
