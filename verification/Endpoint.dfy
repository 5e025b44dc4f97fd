/** A whole PATCH request: arguments, model location and resources compiled into one merge patch. */
module Endpoint {
  import opened JsonValues
  import opened PatchAlgebra
  import opened PatchBody
  import opened Args
  import opened Adapters
  import opened PatchVersusApply

  type Tier = map<string, string>

  /** An empty value asks for deletion. */
  function TierPatch(kvs: Tier): Json {
    Obj(map k | k in kvs :: if kvs[k] == "" then Null else Str(kvs[k]))
  }

  /** Tiers without any key are left out. */
  function CleanResources(request: map<string, Tier>): map<string, Json> {
    map t | t in request && request[t] != map[] :: TierPatch(request[t])
  }

  function BuildResourcesPatch(kind: CrKind, resources: Json): Json {
    if kind.InferenceService? then One("spec", One("predictor", One("model", One("resources", resources))))
    else One("spec", One("template", One("containers", Arr([With(Called(MAIN_CONTAINER), "resources", resources)]))))
  }

  function BuildModelUriPatch(kind: CrKind, uri: string): Json {
    if kind.InferenceService? then One("spec", One("predictor", One("model", One("storageUri", Str(uri)))))
    else One("spec", One("model", One("uri", Str(uri))))
  }

  method ValidateAndMergeResources(kind: CrKind, request: map<string, Tier>) returns (patch: Option<Json>)
    ensures patch == if CleanResources(request) == map[] then None
                     else Some(BuildResourcesPatch(kind, Obj(CleanResources(request))))
  {
    var clean: map<string, Json>, todo := map[], request.Keys;
    while todo != {}
      invariant todo <= request.Keys
      invariant forall t :: t in clean <==> t in request && t !in todo && request[t] != map[]
      invariant forall t | t in clean :: clean[t] == TierPatch(request[t])
      decreases todo
    {
      var t :| t in todo;
      todo := todo - {t};
      var tierPatch := TierPatch(request[t]);
      assert tierPatch.fields.Keys == request[t].Keys;
      if tierPatch.fields != map[] {
        clean := clean[t := tierPatch];
      }
    }
    assert clean == CleanResources(request);
    patch := if clean != map[] then Some(BuildResourcesPatch(kind, Obj(clean))) else None;
  }

  /** The sub-patches of a request, in the endpoint's order. */
  function SubPatches(
    kind: CrKind, cr: Json, data: seq<Entry>, uri: Option<string>, resources: Option<Json>): seq<Json>
    requires WellShaped(kind, cr)
  {
    (if data == [] then [] else [BuildArgsPatch(kind, cr, data)]) +
    (if uri.None? then [] else [BuildModelUriPatch(kind, uri.value)]) +
    (if resources.None? then [] else [BuildResourcesPatch(kind, resources.value)])
  }

  // ----- The adapters' patches are well behaved

  lemma CompatiblePaths(a: string, b: string, c: string, v: Json, w: Json)
    requires Compatible(v, w) && (w.Obj? ==> v.Obj?)
    ensures Compatible(One(a, One(b, One(c, v))), One(a, One(b, One(c, w))))
  {
    assert Compatible(One(c, v), One(c, w));
    assert Compatible(One(b, One(c, v)), One(b, One(c, w)));
  }

  lemma CompatibleDisjoint(k: string, v: Json, l: string, w: Json)
    requires k != l
    ensures Compatible(One(k, v), One(l, w))
  {
  }

  lemma CompatibleUnder(a: string, v: Json, w: Json)
    requires v.Obj? && Compatible(v, w)
    ensures Compatible(One(a, v), One(a, w))
  {
  }

  lemma TamePath(a: string, v: Json)
    requires !v.Null? && Tame(v)
    ensures Tame(One(a, v))
  {
  }

  lemma TameNamedItem(name: string, key: string, v: Json)
    requires !v.Null? && Tame(v)
    ensures Tame(Arr([With(Called(name), key, v)]))
  {
    var item := With(Called(name), key, v);
    assert Tame(Str(name));
    assert Tame(item);
  }

  lemma NestedPatchFacts(a: string, b: string, c: string, v: Json)
    requires !v.Null? && Tame(v)
    ensures var p := One(a, One(b, One(c, v))); Tame(p) && p.fields.Keys == {a} && p.fields[a].Obj?
  {
    hide Tame;
    TamePath(c, v);
    TamePath(b, One(c, v));
    TamePath(a, One(b, One(c, v)));
  }

  lemma StringsAreTame(ss: seq<string>)
    ensures Tame(FromStrings(ss))
  {
    var leaf := FromStrings(ss);
    if leaf.items != [] { assert leaf.items[0].Str? && !HasName(leaf.items[0]); }
  }

  lemma {:induction false} ArgsPatchIsTame(kind: CrKind, cr: Json, data: seq<Entry>)
    requires WellShaped(kind, cr)
    ensures Tame(BuildArgsPatch(kind, cr, data)) && EditsSpecOnly(BuildArgsPatch(kind, cr, data))
  {
    if kind.InferenceService? {
      var tokens := Overridden(IsvcArgs(cr), data);
      hide Overridden, FromStrings, Tame, IsvcShape, IsvcArgs;
      StringsAreTame(tokens);
      TamePath("args", FromStrings(tokens));
      NestedPatchFacts("spec", "predictor", "model", One("args", FromStrings(tokens)));
    } else {
      hide NewValue, Tame, With, LlmShape;
      EnvPatchFacts(Str(NewValue(AdditionalArgs(cr), data)));
    }
  }

  lemma EnvPatchFacts(value: Json)
    requires value.Str?
    ensures var list := Arr([With(Called(MAIN_CONTAINER), "env",
            Arr([With(Called(ADDITIONAL_ARGS), "value", value)]))]);
            var p := One("spec", One("template", One("containers", list)));
            Tame(p) && p.fields.Keys == {"spec"} && p.fields["spec"].Obj?
  {
    assert Tame(value);
    hide Tame, With;
    TameNamedItem(ADDITIONAL_ARGS, "value", value);
    var env := Arr([With(Called(ADDITIONAL_ARGS), "value", value)]);
    TameNamedItem(MAIN_CONTAINER, "env", env);
    NestedPatchFacts("spec", "template", "containers", Arr([With(Called(MAIN_CONTAINER), "env", env)]));
  }

  lemma UriPatchIsTame(kind: CrKind, uri: string)
    ensures Tame(BuildModelUriPatch(kind, uri)) && EditsSpecOnly(BuildModelUriPatch(kind, uri))
  {
    var v := Str(uri);
    if kind.InferenceService? {
      TamePath("storageUri", v);
      TamePath("model", One("storageUri", v));
      TamePath("predictor", One("model", One("storageUri", v)));
      TamePath("spec", One("predictor", One("model", One("storageUri", v))));
    } else {
      TamePath("uri", v);
      TamePath("model", One("uri", v));
      TamePath("spec", One("model", One("uri", v)));
    }
  }

  /** Any earlier patch of a request is compatible with any later one. */
  lemma PatchesAreCompatible(kind: CrKind, cr: Json, data: seq<Entry>, uri: string, resources: Json)
    requires WellShaped(kind, cr)
    ensures Compatible(BuildArgsPatch(kind, cr, data), BuildModelUriPatch(kind, uri))
    ensures Compatible(BuildArgsPatch(kind, cr, data), BuildResourcesPatch(kind, resources))
    ensures Compatible(BuildModelUriPatch(kind, uri), BuildResourcesPatch(kind, resources))
  {
    if kind.InferenceService? {
      var args, location := One("args", FromStrings(Overridden(IsvcArgs(cr), data))), One("storageUri", Str(uri));
      var res := One("resources", resources);
      CompatibleDisjoint("args", args.fields["args"], "storageUri", Str(uri));
      CompatibleDisjoint("args", args.fields["args"], "resources", resources);
      CompatibleDisjoint("storageUri", Str(uri), "resources", resources);
      hide Overridden, FromStrings, Compatible;
      CompatiblePaths("spec", "predictor", "model", args, location);
      CompatiblePaths("spec", "predictor", "model", args, res);
      CompatiblePaths("spec", "predictor", "model", location, res);
    } else {
      var value := Str(NewValue(AdditionalArgs(cr), data));
      hide NewValue, With;
      var list := Arr([With(Called(MAIN_CONTAINER), "env", Arr([With(Called(ADDITIONAL_ARGS), "value", value)]))]);
      var res := Arr([With(Called(MAIN_CONTAINER), "resources", resources)]);
      var location := One("uri", Str(uri));
      CompatiblePaths("spec", "template", "containers", list, res);
      CompatibleDisjoint("template", One("containers", list), "model", location);
      CompatibleDisjoint("model", location, "template", One("containers", res));
      CompatibleUnder("spec", One("template", One("containers", list)), One("model", location));
      CompatibleUnder("spec", One("model", location), One("template", One("containers", res)));
    }
  }

  // ----- The request

  predicate SpecPatch(p: Json) {
    p.Obj? && p.fields != map[] && EditsSpecOnly(p)
  }

  lemma AreSpecPatches(kind: CrKind, cr: Json, data: seq<Entry>, uri: string, resources: Json)
    requires WellShaped(kind, cr)
    ensures SpecPatch(BuildArgsPatch(kind, cr, data)) && SpecPatch(BuildModelUriPatch(kind, uri))
    ensures SpecPatch(BuildResourcesPatch(kind, resources))
  {
    hide Overridden, FromStrings, IsvcShape, IsvcArgs, NewValue, LlmShape, With, SpecPatch;
    SpecPatchOne(BuildArgsPatch(kind, cr, data).fields["spec"]);
    SpecPatchOne(BuildModelUriPatch(kind, uri).fields["spec"]);
    SpecPatchOne(BuildResourcesPatch(kind, resources).fields["spec"]);
  }

  lemma SpecPatchOne(spec: Json)
    requires spec.Obj?
    ensures SpecPatch(One("spec", spec))
  {
    assert "spec" in One("spec", spec).fields;
  }

  lemma {:induction false} RequestIsSequencable(
    kind: CrKind, cr: Json, data: seq<Entry>, uri: Option<string>, resources: Option<Json>)
    requires WellShaped(kind, cr) && Tame(SpecOf(cr)) && (resources.Some? ==> resources.value.Obj?)
    ensures Sequencable(SpecOf(cr), SubPatches(kind, cr, data, uri, resources))
    ensures forall p | p in SubPatches(kind, cr, data, uri, resources) :: SpecPatch(p)
  {
    var u := if uri.Some? then uri.value else "";
    var r := if resources.Some? then resources.value else EMPTY_OBJ;
    var subs := SubPatches(kind, cr, data, uri, resources);
    hide BuildArgsPatch, BuildModelUriPatch, BuildResourcesPatch, Compatible, Tame, Sequencable, WellShaped, SpecOf,
         EditsSpecOnly;
    var pa, pu, pr := BuildArgsPatch(kind, cr, data), BuildModelUriPatch(kind, u), BuildResourcesPatch(kind, r);
    assert subs == Pick(data != [], uri.Some?, resources.Some?, pa, pu, pr);
    hide SubPatches, SpecPatch;
    AreSpecPatches(kind, cr, data, u, r);
    ArgsPatchIsTame(kind, cr, data);
    UriPatchIsTame(kind, u);
    PatchesAreCompatible(kind, cr, data, u, r);
    PickIsSequencable(SpecOf(cr), data != [], uri.Some?, resources.Some?, pa, pu, pr);
  }

  function Pick(a: bool, u: bool, r: bool, pa: Json, pu: Json, pr: Json): seq<Json> {
    (if a then [pa] else []) + (if u then [pu] else []) + (if r then [pr] else [])
  }

  lemma PickIsOrdered(a: bool, u: bool, r: bool, pa: Json, pu: Json, pr: Json)
    requires Tame(pa) && Tame(pu) && Compatible(pa, pu) && Compatible(pa, pr) && Compatible(pu, pr)
    ensures forall i, j | 0 <= i < j < |Pick(a, u, r, pa, pu, pr)| ::
              Compatible(Pick(a, u, r, pa, pu, pr)[i], Pick(a, u, r, pa, pu, pr)[j])
    ensures forall i | 0 <= i < |Pick(a, u, r, pa, pu, pr)| - 1 :: Tame(Pick(a, u, r, pa, pu, pr)[i])
    ensures forall p | p in Pick(a, u, r, pa, pu, pr) :: p in {pa, pu, pr}
  {
    hide Tame, Compatible;
  }

  lemma PickIsSequencable(base: Json, a: bool, u: bool, r: bool, pa: Json, pu: Json, pr: Json)
    requires base.Obj? && Tame(base) && SpecPatch(pa) && SpecPatch(pu) && SpecPatch(pr)
    requires Tame(pa) && Tame(pu) && Compatible(pa, pu) && Compatible(pa, pr) && Compatible(pu, pr)
    ensures Sequencable(base, Pick(a, u, r, pa, pu, pr))
    ensures forall p | p in Pick(a, u, r, pa, pu, pr) :: SpecPatch(p)
  {
    hide Tame, Compatible, Sequencable, EditsSpecOnly;
    PickIsOrdered(a, u, r, pa, pu, pr);
    hide Pick;
    assert forall p | p in Pick(a, u, r, pa, pu, pr) :: SpecPatch(p);
    TameEditsAreSequencable(base, Pick(a, u, r, pa, pu, pr));
  }

  /** A request that deletes no resources, or any request to an LLMInferenceService, ends in a grounded edit. */
  lemma LastEditIsGrounded(
    kind: CrKind, cr: Json, data: seq<Entry>, uri: Option<string>, resources: Option<Json>, base: Json)
    requires WellShaped(kind, cr) && SubPatches(kind, cr, data, uri, resources) != []
    requires kind.LLMInferenceService? || resources.None?
    ensures var subs := SubPatches(kind, cr, data, uri, resources); Grounded(base, subs[|subs| - 1])
  {
    hide Tame, Grounded, BuildArgsPatch, BuildModelUriPatch, WellShaped;
    if resources.Some? {
      ListLeafIsGrounded(base, With(Called(MAIN_CONTAINER), "resources", resources.value));
    } else if uri.Some? {
      UriPatchIsTame(kind, uri.value);
      TameIsGrounded(base, BuildModelUriPatch(kind, uri.value));
    } else {
      ArgsPatchIsTame(kind, cr, data);
      TameIsGrounded(base, BuildArgsPatch(kind, cr, data));
    }
  }

  /**
   * One compiled patch, applied once by the server, has the effect of the request's edits one after another:
   * for an LLMInferenceService always, for an InferenceService exactly when the last edit is grounded.
   */
  lemma {:induction false} RequestMeansEdits(
    kind: CrKind, cr: Json, data: seq<Entry>, uri: Option<string>, resources: Option<Json>)
    requires WellShaped(kind, cr) && Tame(SpecOf(cr)) && (resources.Some? ==> resources.value.Obj?)
    requires SubPatches(kind, cr, data, uri, resources) != []
    ensures var subs := SubPatches(kind, cr, data, uri, resources);
            && Sequencable(SpecOf(cr), subs)
            && (MeansEdits(SpecOf(cr), subs) <==>
                Grounded(Edited(SpecOf(cr), subs, |subs| - 1), subs[|subs| - 1]))
            && (kind.LLMInferenceService? || resources.None? ==> MeansEdits(SpecOf(cr), subs))
  {
    var start, subs := SpecOf(cr), SubPatches(kind, cr, data, uri, resources);
    assert start.Obj?;
    hide SubPatches, WellShaped, Tame, Sequencable, MeansEdits, Edited, Grounded, SpecOf, SpecPatch;
    RequestIsSequencable(kind, cr, data, uri, resources);
    SequencableObjects(start, subs);
    CompiledPatchMeansEdits(start, subs);
    if kind.LLMInferenceService? || resources.None? {
      LastEditIsGrounded(kind, cr, data, uri, resources, Edited(start, subs, |subs| - 1));
    }
  }

  lemma GroundedUnder(base: Json, k: string, v: Json)
    requires !v.Null? && NoNullMembers(v) && Grounded(Field(base, k), v)
    ensures Grounded(base, One(k, v)) && NoNullMembers(One(k, v))
  {
  }

  lemma ListLeafIsGrounded(base: Json, item: Json)
    ensures Grounded(base, One("spec", One("template", One("containers", Arr([item])))))
  {
    var list, t := Arr([item]), Field(base, "spec");
    GroundedUnder(Field(t, "template"), "containers", list);
    GroundedUnder(t, "template", One("containers", list));
    GroundedUnder(base, "spec", One("template", One("containers", list)));
  }

  // ----- The condition on the request, and the server's whole object

  /** The main container of a list that can be merged by name: the one a merge finds. */
  function MainOf(containers: Json): Json {
    if !IsNamedList(containers) then Null
    else
      match IndexByName(containers.items, Str(MAIN_CONTAINER))
      case Some(i) => containers.items[i]
      case None => Null
  }

  /** What carries the resources: the predictor's model, or the main container. */
  function Carrier(kind: CrKind, cr: Json): Json {
    if kind.InferenceService? then Field(Field(Field(cr, "spec"), "predictor"), "model")
    else MainOf(Field(Field(Field(cr, "spec"), "template"), "containers"))
  }

  function HeldResources(kind: CrKind, cr: Json): Json {
    Field(Carrier(kind, cr), "resources")
  }

  /** Keys are deleted from tiers only that the resource has. */
  predicate DeletesFromHeldTiers(kind: CrKind, cr: Json, request: map<string, Tier>) {
    forall t, k | t in request && k in request[t] && request[t][k] == "" :: Field(HeldResources(kind, cr), t).Obj?
  }

  lemma {:induction false} GroundedOne(base: Json, k: string, v: Json)
    requires v.Obj?
    ensures Grounded(base, One(k, v)) <==> Grounded(Field(base, k), v)
  {
    assert One(k, v).fields.Keys == {k};
    assert NoNullMembers(One(k, v)) <==> NoNullMembers(v);
  }

  lemma {:induction false} GroundedTier(base: Json, tier: Tier)
    ensures Grounded(base, TierPatch(tier)) <==> base.Obj? || forall k | k in tier :: tier[k] != ""
  {
    var p := TierPatch(tier);
    forall k | k in tier
      ensures p.fields[k].Null? <==> tier[k] == ""
      ensures Grounded(Field(base, k), p.fields[k]) && NoNullMembers(p.fields[k])
    {
    }
    if !base.Obj? {
      assert Grounded(base, p) <==> NoNullMembers(p);
      if k :| k in tier && tier[k] == "" {
        assert k in p.fields && p.fields[k].Null?;
      }
    }
  }

  lemma {:induction false} GroundedTiers(base: Json, resources: Json)
    requires resources.Obj? && forall t | t in resources.fields :: resources.fields[t].Obj?
    ensures Grounded(base, resources) <==>
            forall t | t in resources.fields :: Grounded(Field(base, t), resources.fields[t])
  {
    forall t | t in resources.fields && !base.Obj?
      ensures Grounded(Field(base, t), resources.fields[t]) <==> NoNullMembers(resources.fields[t])
    {
      assert Field(base, t) == Null;
    }
    if !base.Obj? && forall t | t in resources.fields :: Grounded(Field(base, t), resources.fields[t]) {
      forall t | t in resources.fields ensures NoNullMembers(resources.fields[t]) {
        assert Grounded(Field(base, t), resources.fields[t]);
      }
    }
  }

  lemma {:induction false} ResourcesGrounded(base: Json, request: map<string, Tier>)
    ensures Grounded(base, BuildResourcesPatch(InferenceService, Obj(CleanResources(request)))) <==>
            DeletesFromHeldTiers(InferenceService, base, request)
  {
    var clean := CleanResources(request);
    var r := Obj(clean);
    GroundedOne(base, "spec", One("predictor", One("model", One("resources", r))));
    GroundedOne(Field(base, "spec"), "predictor", One("model", One("resources", r)));
    GroundedOne(Field(Field(base, "spec"), "predictor"), "model", One("resources", r));
    GroundedOne(Field(Field(Field(base, "spec"), "predictor"), "model"), "resources", r);
    var held := HeldResources(InferenceService, base);
    GroundedTiers(held, r);
    forall t | t in clean
      ensures Grounded(Field(held, t), clean[t]) <==>
              Field(held, t).Obj? || forall k | k in request[t] :: request[t][k] != ""
    {
      GroundedTier(Field(held, t), request[t]);
    }
    hide Grounded;
    forall t, k | t in request && k in request[t] ensures t in clean {
    }
  }

  lemma {:induction false} MergedOne(base: Json, k: string, v: Json, j: string)
    requires !v.Null?
    ensures Field(MergedInto(base, One(k, v)), j) == if j == k then MergedInto(Field(base, k), v) else Field(base, j)
  {
    MergedOverNull(v);
  }

  /** A list merge that writes one member of the main container, adding the container if need be. */
  lemma {:induction false} ListMergeMain(list: Json, key: string, v: Json, j: string)
    requires key != "name" && j != "name" && !v.Null?
    ensures Field(MainOf(MergedInto(list, Arr([With(Called(MAIN_CONTAINER), key, v)]))), j) ==
            if j == key then MergedInto(Field(MainOf(list), key), v) else Field(MainOf(list), j)
  {
    var item, name := With(Called(MAIN_CONTAINER), key, v), Str(MAIN_CONTAINER);
    var patch := Arr([item]);
    assert HasName(item) && NameOf(item) == name && item.fields.Keys == {"name", key};
    MergedOverNull(v);
    if IsNamedList(list) {
      var items, merged := list.items, MergedItems(list, patch, 1);
      assert MergedInto(list, patch) == Arr(merged);
      assert MergedItems(list, patch, 0) == items;
      match IndexByName(items, name) {
        case None =>
          assert merged == items + [item];
          LastIsFound(items, item);
        case Some(i) =>
          var m := MergedInto(items[i], item);
          assert merged == items[i := m];
          assert m.fields["name"] == MergedInto(items[i].fields["name"], name);
          SameNames(items, i, m, name);
      }
    } else {
      assert MergedInto(list, patch) == patch;
      LastIsFound([], item);
      assert [] + [item] == [item];
    }
  }

  lemma LastIsFound(items: seq<Json>, item: Json)
    requires HasName(item)
    ensures IndexByName(items + [item], NameOf(item)) == Some(|items|)
  {
  }

  lemma {:induction false} SameNames(items: seq<Json>, i: nat, m: Json, name: Json)
    requires IndexByName(items, name) == Some(i) && NameIs(m, name)
    ensures IndexByName(items[i := m], name) == Some(i)
    decreases |items|
  {
    var n := |items| - 1;
    if i < n {
      assert items[i := m][..n] == items[..n][i := m];
      SameNames(items[..n], i, m, name);
    }
  }

  /** A patch of another member of the carrier leaves the resources alone. */
  lemma {:induction false} ResourcesStay(kind: CrKind, base: Json, x: string, leaf: Json)
    requires x !in {"name", "resources"} && !leaf.Null?
    ensures HeldResources(kind, MergedInto(base, CarrierPatch(kind, x, leaf))) == HeldResources(kind, base)
  {
    hide MergedInto, MainOf;
    MergedCarrier(kind, base, x, leaf, "resources");
  }

  /** A patch that writes one member of the carrier. */
  function CarrierPatch(kind: CrKind, x: string, leaf: Json): Json {
    if kind.InferenceService? then One("spec", One("predictor", One("model", One(x, leaf))))
    else One("spec", One("template", One("containers", Arr([With(Called(MAIN_CONTAINER), x, leaf)]))))
  }

  lemma {:induction false} MergedCarrier(kind: CrKind, base: Json, x: string, leaf: Json, j: string)
    requires x != "name" && j != "name" && !leaf.Null?
    ensures Field(Carrier(kind, MergedInto(base, CarrierPatch(kind, x, leaf))), j) ==
            if j == x then MergedInto(Field(Carrier(kind, base), x), leaf) else Field(Carrier(kind, base), j)
  {
    hide MergedInto, MainOf, With;
    var (a, b, v) := if kind.InferenceService? then ("predictor", "model", One(x, leaf))
                     else ("template", "containers", Arr([With(Called(MAIN_CONTAINER), x, leaf)]));
    var spec, inner := Field(base, "spec"), Field(Field(base, "spec"), a);
    MergedOne(base, "spec", One(a, One(b, v)), "spec");
    MergedOne(spec, a, One(b, v), a);
    MergedOne(inner, b, v, b);
    if kind.InferenceService? {
      MergedOne(Field(inner, b), x, leaf, j);
    } else {
      ListMergeMain(Field(inner, b), x, leaf, j);
    }
  }

  lemma {:induction false} ArgsLeaveResources(kind: CrKind, base: Json, cr: Json, data: seq<Entry>)
    requires WellShaped(kind, cr)
    ensures HeldResources(kind, MergedInto(base, BuildArgsPatch(kind, cr, data))) == HeldResources(kind, base)
  {
    hide Overridden, FromStrings, MergedInto, IsvcShape, IsvcArgs, NewValue, AdditionalArgs, LlmShape, HeldResources,
         With;
    if kind.InferenceService? {
      ResourcesStay(kind, base, "args", FromStrings(Overridden(IsvcArgs(cr), data)));
    } else {
      var value := Str(NewValue(AdditionalArgs(cr), data));
      ResourcesStay(kind, base, "env", Arr([With(Called(ADDITIONAL_ARGS), "value", value)]));
    }
  }

  lemma {:induction false} UriLeavesResources(kind: CrKind, base: Json, uri: string)
    ensures HeldResources(kind, MergedInto(base, BuildModelUriPatch(kind, uri))) == HeldResources(kind, base)
  {
    hide MergedInto, MainOf;
    if kind.InferenceService? {
      ResourcesStay(kind, base, "storageUri", Str(uri));
    } else {
      MergedOne(base, "spec", One("model", One("uri", Str(uri))), "spec");
      MergedOne(Field(base, "spec"), "model", One("uri", Str(uri)), "template");
    }
  }

  /** The positions of the three sub-patches. */
  lemma Positions(kind: CrKind, cr: Json, data: seq<Entry>, uri: Option<string>, resources: Option<Json>)
    requires WellShaped(kind, cr)
    ensures var subs := SubPatches(kind, cr, data, uri, resources);
            var a := if data == [] then 0 else 1;
            var u := a + if uri.None? then 0 else 1;
            && |subs| == u + (if resources.None? then 0 else 1)
            && (data != [] ==> subs[0] == BuildArgsPatch(kind, cr, data))
            && (uri.Some? ==> subs[a] == BuildModelUriPatch(kind, uri.value))
            && (resources.Some? ==> subs[u] == BuildResourcesPatch(kind, resources.value))
  {
    hide BuildArgsPatch, BuildModelUriPatch, BuildResourcesPatch, WellShaped;
  }

  /** The edits of a request that are not of its resources, which come last, do not touch them. */
  lemma {:induction false} OthersLeaveResources(
    kind: CrKind, cr: Json, data: seq<Entry>, uri: Option<string>, resources: Option<Json>)
    requires WellShaped(kind, cr)
    ensures var subs := SubPatches(kind, cr, data, uri, resources);
            var others := |SubPatches(kind, cr, data, uri, None)|;
            && |subs| == others + (if resources.Some? then 1 else 0)
            && (resources.Some? ==> subs[others] == BuildResourcesPatch(kind, resources.value))
            && HeldResources(kind, Edited(SpecOf(cr), subs, others)) == HeldResources(kind, SpecOf(cr))
  {
    var subs := SubPatches(kind, cr, data, uri, resources);
    var start, n := SpecOf(cr), |SubPatches(kind, cr, data, uri, None)|;
    assert Edited(start, subs, 0) == start;
    Positions(kind, cr, data, uri, resources);
    Positions(kind, cr, data, uri, None);
    hide MergedInto, BuildArgsPatch, BuildModelUriPatch, BuildResourcesPatch, WellShaped, SpecOf, HeldResources,
         SubPatches, Edited;
    if data != [] {
      ArgsLeaveResources(kind, start, cr, data);
      EditedOneMore(start, subs, 1);
    }
    if uri.Some? {
      UriLeavesResources(kind, Edited(start, subs, n - 1), uri.value);
      EditedOneMore(start, subs, n);
    }
  }

  lemma EditedOneMore(start: Json, subs: seq<Json>, n: nat)
    requires 0 < n <= |subs|
    ensures Edited(start, subs, n) == MergedInto(Edited(start, subs, n - 1), subs[n - 1])
  {
  }

  predicate IsSpecOnly(j: Json) {
    j.Obj? && j.fields.Keys == {"spec"}
  }

  lemma {:induction false} MergeKeepsSpecOnly(base: Json, patch: Json)
    requires IsSpecOnly(base) && SpecPatch(patch)
    ensures IsSpecOnly(MergedInto(base, patch)) && IsSpecOnly(MergePatch(base, patch))
  {
    assert "spec" in patch.fields by {
      var k :| k in patch.fields;
    }
    MergedMember(base, patch, "spec");
  }

  lemma {:induction false} EditedIsSpecOnly(start: Json, subs: seq<Json>, n: nat)
    requires IsSpecOnly(start) && n <= |subs| && forall p | p in subs :: SpecPatch(p)
    ensures IsSpecOnly(Edited(start, subs, n))
    decreases n
  {
    hide MergedInto, IsSpecOnly, SpecPatch;
    if n > 0 {
      EditedIsSpecOnly(start, subs, n - 1);
      MergeKeepsSpecOnly(Edited(start, subs, n - 1), subs[n - 1]);
    }
  }

  lemma {:induction false} BodyIsSpecPatch(start: Json, subs: seq<Json>)
    requires subs != [] && forall p | p in subs :: p.Obj? && SpecPatch(p)
    ensures SpecPatch(Body(start, subs, |subs|))
  {
    var n := |subs| - 1;
    BodyEditsSpecOnly(start, subs, |subs|);
    var before, e := Body(start, subs, n), ExpandNamedLists(subs[n], Working(start, subs, n));
    ExpandKeepsShape(subs[n], Working(start, subs, n));
    var k :| k in subs[n].fields;
    assert k in e.fields;
    assert k in DeepMerged(before, e).fields;
  }

  lemma {:induction false} OnServer(cr: Json, subs: seq<Json>)
    requires cr.Obj? && subs != [] && forall p | p in subs :: p.Obj? && SpecPatch(p)
    ensures MergePatch(cr, Body(SpecOf(cr), subs, |subs|)) ==
            Obj(cr.fields["spec" := Field(Edited(SpecOf(cr), subs, |subs|), "spec")]) <==>
            MeansEdits(SpecOf(cr), subs)
  {
    var start, n := SpecOf(cr), |subs|;
    assert IsSpecOnly(start);
    BodyIsSpecPatch(start, subs);
    EditedIsSpecOnly(start, subs, n);
    var b, e := Body(start, subs, n), Edited(start, subs, n);
    assert MeansEdits(start, subs) <==> MergePatch(start, b) == e;
    hide Body, Edited, MeansEdits, SpecOf;
    PatchTouchesSpecOnly(cr, b);
    MergeKeepsSpecOnly(start, b);
    hide MergePatch;
    SameSpec(cr, MergePatch(start, b), e);
  }

  lemma SameSpec(cr: Json, a: Json, b: Json)
    requires cr.Obj? && IsSpecOnly(a) && IsSpecOnly(b)
    ensures Obj(cr.fields["spec" := Field(a, "spec")]) == Obj(cr.fields["spec" := Field(b, "spec")]) <==> a == b
  {
    if Obj(cr.fields["spec" := Field(a, "spec")]) == Obj(cr.fields["spec" := Field(b, "spec")]) {
      assert cr.fields["spec" := Field(a, "spec")]["spec"] == cr.fields["spec" := Field(b, "spec")]["spec"];
      assert a.fields == b.fields;
    }
  }

  /** The resources of a request: none when every tier is empty. */
  function RequestResources(request: map<string, Tier>): Option<Json> {
    if CleanResources(request) == map[] then None else Some(Obj(CleanResources(request)))
  }

  /** The edits of a request compile exactly, but for keys deleted from missing tiers of an InferenceService. */
  lemma {:induction false} RequestCompiles(
    kind: CrKind, cr: Json, data: seq<Entry>, uri: Option<string>, request: map<string, Tier>)
    requires WellShaped(kind, cr) && Tame(SpecOf(cr))
    requires SubPatches(kind, cr, data, uri, RequestResources(request)) != []
    ensures var subs := SubPatches(kind, cr, data, uri, RequestResources(request));
            && (forall p | p in subs :: p.Obj? && SpecPatch(p))
            && (MeansEdits(SpecOf(cr), subs) <==> kind.LLMInferenceService? || DeletesFromHeldTiers(kind, cr, request))
  {
    var res := RequestResources(request);
    hide SubPatches, Tame, Sequencable, MeansEdits, Grounded, SpecPatch, Edited, WellShaped, SpecOf,
         DeletesFromHeldTiers;
    RequestIsSequencable(kind, cr, data, uri, res);
    SequencableObjects(SpecOf(cr), SubPatches(kind, cr, data, uri, res));
    RequestMeansEdits(kind, cr, data, uri, res);
    if kind.InferenceService? {
      if res.Some? {
        IsvcLastIsGrounded(cr, data, uri, request);
      } else {
        NoResources(cr, request);
      }
    }
  }

  /**
   * A whole request on the server's object: one PATCH leaves everything but the spec as it is and the spec as the
   * edits leave it, for an LLMInferenceService always, and for an InferenceService exactly when no key is deleted
   * from a tier that the resource does not have.
   */
  lemma {:induction false} RequestOnServer(
    kind: CrKind, cr: Json, data: seq<Entry>, uri: Option<string>, request: map<string, Tier>)
    requires WellShaped(kind, cr) && Tame(SpecOf(cr))
    requires SubPatches(kind, cr, data, uri, RequestResources(request)) != []
    ensures var subs := SubPatches(kind, cr, data, uri, RequestResources(request));
            && (forall p | p in subs :: p.Obj?)
            && (MergePatch(cr, Body(SpecOf(cr), subs, |subs|)) ==
                Obj(cr.fields["spec" := Field(Edited(SpecOf(cr), subs, |subs|), "spec")]) <==>
                kind.LLMInferenceService? || DeletesFromHeldTiers(kind, cr, request))
  {
    assert cr.Obj?;
    hide SubPatches, Tame, MeansEdits, SpecPatch, MergePatch, Body, Edited, WellShaped, SpecOf, DeletesFromHeldTiers,
         RequestResources;
    RequestCompiles(kind, cr, data, uri, request);
    OnServer(cr, SubPatches(kind, cr, data, uri, RequestResources(request)));
  }

  lemma {:induction false} IsvcLastIsGrounded(
    cr: Json, data: seq<Entry>, uri: Option<string>, request: map<string, Tier>)
    requires WellShaped(InferenceService, cr) && RequestResources(request).Some?
    ensures var subs := SubPatches(InferenceService, cr, data, uri, RequestResources(request));
            && subs != []
            && (Grounded(Edited(SpecOf(cr), subs, |subs| - 1), subs[|subs| - 1]) <==>
                DeletesFromHeldTiers(InferenceService, cr, request))
  {
    hide Grounded, Edited, WellShaped, SubPatches;
    var r := Obj(CleanResources(request));
    OthersLeaveResources(InferenceService, cr, data, uri, Some(r));
    var subs := SubPatches(InferenceService, cr, data, uri, Some(r));
    ResourcesGrounded(Edited(SpecOf(cr), subs, |subs| - 1), request);
    assert HeldResources(InferenceService, SpecOf(cr)) == HeldResources(InferenceService, cr);
  }

  lemma NoResources(cr: Json, request: map<string, Tier>)
    requires CleanResources(request) == map[]
    ensures DeletesFromHeldTiers(InferenceService, cr, request)
  {
    forall t | t in request ensures request[t] == map[] {
      assert request[t] != map[] <==> t in CleanResources(request);
    }
  }
}
