/** What one PATCH makes of the resources of a service, key by key. */
module ResourceRequests {
  import opened JsonValues
  import opened PatchAlgebra
  import opened PatchBody
  import opened Args
  import opened Adapters
  import opened Endpoint

  // ----- Paths through objects

  /** The value at a path that leads through objects only. */
  function At(j: Json, path: seq<string>): Option<Json>
    decreases |path|
  {
    if path == [] then Some(j)
    else if j.Obj? && path[0] in j.fields then At(j.fields[path[0]], path[1..])
    else None
  }

  function AtOrNull(j: Json, path: seq<string>): Json {
    match At(j, path) case Some(v) => v case None => Null
  }

  lemma {:induction false} ExpandKeepsAbsence(p: Json, current: Json, path: seq<string>)
    requires At(p, path).None?
    ensures At(ExpandNamedLists(p, current), path).None?
    decreases |path|
  {
    hide MergedInto;
    if p.Obj? && path[0] in p.fields {
      ExpandKeepsAbsence(p.fields[path[0]], Field(current, path[0]), path[1..]);
    } else {
      ExpandKeepsShape(p, current);
    }
  }

  lemma {:induction false} MergedPath(base: Json, over: Json, path: seq<string>)
    requires base.Obj? && over.Obj? && At(base, path).None?
    ensures At(DeepMerged(base, over), path) == At(over, path)
    decreases |path|
  {
    var k := path[0];
    if k in base.fields && base.fields[k].Obj? && k in over.fields && over.fields[k].Obj? {
      MergedPath(base.fields[k], over.fields[k], path[1..]);
    }
  }

  /** A value of the patch meets, on the server, the value at the same path. */
  lemma {:induction false} PatchedPath(target: Json, patch: Json, path: seq<string>)
    requires At(patch, path).Some? && !At(patch, path).value.Null?
    ensures At(MergePatch(target, patch), path) == Some(MergePatch(AtOrNull(target, path), At(patch, path).value))
    decreases |path|
  {
    if path != [] {
      PatchedPath(Field(target, path[0]), patch.fields[path[0]], path[1..]);
    }
  }

  lemma {:induction false} BodyKeepsAbsence(start: Json, subs: seq<Json>, n: nat, path: seq<string>)
    requires n <= |subs| && path != [] && forall p | p in subs :: p.Obj?
    requires forall i | 0 <= i < n :: At(subs[i], path).None?
    ensures At(Body(start, subs, n), path).None?
    decreases n
  {
    hide DeepMerged, ExpandNamedLists, Working;
    if n > 0 {
      BodyKeepsAbsence(start, subs, n - 1, path);
      var w := Working(start, subs, n - 1);
      ExpandKeepsShape(subs[n - 1], w);
      ExpandKeepsAbsence(subs[n - 1], w, path);
      MergedPath(Body(start, subs, n - 1), ExpandNamedLists(subs[n - 1], w), path);
    }
  }

  // ----- One tier key

  /** The resources after a request: what it asks for, but a null for a key deleted from a tier that is not there. */
  function MergedKey(held: Json, request: map<string, Tier>, t: string, k: string): Option<Json> {
    if t !in request || k !in request[t] then At(held, [t, k])
    else if request[t][k] != "" then Some(Str(request[t][k]))
    else if Field(held, t).Obj? then None
    else Some(Null)
  }

  /** The same without the null. */
  function PatchedKey(held: Json, request: map<string, Tier>, t: string, k: string): Option<Json> {
    if t in request && k in request[t] && request[t][k] == "" then None else MergedKey(held, request, t, k)
  }

  lemma TwoSteps(j: Json, t: string, k: string)
    ensures At(j, [t, k]) == At(Field(j, t), [k])
    ensures At(j, [k]) == if j.Obj? && k in j.fields then Some(j.fields[k]) else None
  {
  }

  lemma {:induction false} TierKey(held: Json, tier: Tier, k: string)
    ensures At(MergedInto(held, TierPatch(tier)), [k]) ==
            if k !in tier then At(held, [k]) else if tier[k] != "" then Some(Str(tier[k]))
            else if held.Obj? then None else Some(Null)
    ensures At(MergePatch(held, TierPatch(tier)), [k]) ==
            if k !in tier then At(held, [k]) else if tier[k] != "" then Some(Str(tier[k])) else None
  {
    TwoSteps(held, k, k);
    var p := TierPatch(tier);
    TwoSteps(MergedInto(held, p), k, k);
    TwoSteps(MergePatch(held, p), k, k);
    if k in tier { assert p.fields[k] == if tier[k] == "" then Null else Str(tier[k]); }
  }

  lemma {:induction false} ResourceKey(held: Json, request: map<string, Tier>, t: string, k: string)
    ensures At(MergedInto(held, Obj(CleanResources(request))), [t, k]) == MergedKey(held, request, t, k)
    ensures At(MergePatch(held, Obj(CleanResources(request))), [t, k]) == PatchedKey(held, request, t, k)
  {
    var clean := CleanResources(request);
    var r := Obj(clean);
    TwoSteps(held, t, k);
    TwoSteps(MergedInto(held, r), t, k);
    TwoSteps(MergePatch(held, r), t, k);
    if t in clean {
      TierKey(Field(held, t), request[t], k);
      TierOverNull(request[t]);
      assert Field(MergedInto(held, r), t) == MergedInto(Field(held, t), TierPatch(request[t]));
      assert Field(MergePatch(held, r), t) == MergePatch(Field(held, t), TierPatch(request[t]));
    } else {
      assert t in request ==> request[t] == map[];
    }
  }

  lemma TierOverNull(tier: Tier)
    ensures MergedInto(Null, TierPatch(tier)) == TierPatch(tier)
  {
  }

  // ----- The whole request

  /** The service after one PATCH of the compiled body. */
  function Patched(
    kind: CrKind, cr: Json, data: seq<Entry>, uri: Option<string>, request: map<string, Tier>): Json
    requires WellShaped(kind, cr)
    requires forall p | p in SubPatches(kind, cr, data, uri, RequestResources(request)) :: p.Obj?
  {
    var subs := SubPatches(kind, cr, data, uri, RequestResources(request));
    MergePatch(cr, Body(SpecOf(cr), subs, |subs|))
  }

  lemma SubPatchesAreObjects(
    kind: CrKind, cr: Json, data: seq<Entry>, uri: Option<string>, resources: Option<Json>)
    requires WellShaped(kind, cr)
    ensures forall p | p in SubPatches(kind, cr, data, uri, resources) :: p.Obj?
  {
  }

  /** The resources depend on the spec alone. */
  lemma ResourcesOfSpec(kind: CrKind, cr: Json, edited: Json)
    requires cr.Obj? && edited.Obj?
    ensures HeldResources(kind, Obj(cr.fields["spec" := Field(edited, "spec")])) == HeldResources(kind, edited)
    ensures HeldResources(kind, SpecOf(cr)) == HeldResources(kind, cr)
  {
    hide MainOf;
  }

  const RESOURCES: seq<string> := ["spec", "predictor", "model", "resources"]

  lemma {:induction false} ResourcesAt(j: Json)
    ensures HeldResources(InferenceService, j) == AtOrNull(j, RESOURCES)
  {
    var a, b := Field(j, "spec"), Field(Field(j, "spec"), "predictor");
    assert RESOURCES[1..] == ["predictor", "model", "resources"];
    assert RESOURCES[1..][1..] == ["model", "resources"];
    assert At(j, RESOURCES) == At(a, RESOURCES[1..]);
    assert At(a, RESOURCES[1..]) == At(b, ["model", "resources"]);
    TwoSteps(b, "model", "resources");
  }

  lemma {:induction false} PathOfPatch(x: string, leaf: Json)
    ensures At(One("spec", One("predictor", One("model", One(x, leaf)))), RESOURCES) ==
            if x == "resources" then Some(leaf) else None
  {
    assert RESOURCES[1..] == ["predictor", "model", "resources"];
    assert RESOURCES[1..][1..] == ["model", "resources"];
    var m := One("model", One(x, leaf));
    assert At(One("spec", One("predictor", m)), RESOURCES) == At(One("predictor", m), RESOURCES[1..]);
    assert At(One("predictor", m), RESOURCES[1..]) == At(m, ["model", "resources"]);
    TwoSteps(m, "model", "resources");
  }

  lemma NoNamedLists(request: map<string, Tier>)
    ensures !HasNamedList(BuildResourcesPatch(InferenceService, Obj(CleanResources(request))))
  {
    var r := Obj(CleanResources(request));
    forall t | t in r.fields ensures !HasNamedList(r.fields[t]) {
      var p := TierPatch(request[t]);
      assert forall k | k in p.fields :: !HasNamedList(p.fields[k]);
    }
    assert !HasNamedList(r);
    assert !HasNamedList(One("resources", r));
    assert !HasNamedList(One("model", One("resources", r)));
    assert !HasNamedList(One("predictor", One("model", One("resources", r))));
  }

  /** The sub-patches before the resources do not speak of them. */
  lemma {:induction false} OthersAreSilent(
    cr: Json, data: seq<Entry>, uri: Option<string>, r: Json)
    requires WellShaped(InferenceService, cr)
    ensures var subs := SubPatches(InferenceService, cr, data, uri, Some(r));
            && subs != [] && subs[|subs| - 1] == BuildResourcesPatch(InferenceService, r)
            && forall i | 0 <= i < |subs| - 1 :: At(subs[i], RESOURCES).None?
  {
    var subs := SubPatches(InferenceService, cr, data, uri, Some(r));
    var pa := BuildArgsPatch(InferenceService, cr, data);
    PathOfPatch("args", FromStrings(Overridden(IsvcArgs(cr), data)));
    assert At(pa, RESOURCES).None?;
    hide At, WellShaped, FromStrings, Overridden, IsvcArgs, IsvcShape, BuildArgsPatch;
    if uri.Some? {
      PathOfPatch("storageUri", Str(uri.value));
    }
    forall i | 0 <= i < |subs| - 1 ensures At(subs[i], RESOURCES).None? {
      if subs[i] != pa { assert subs[i] == BuildModelUriPatch(InferenceService, uri.value); }
    }
  }

  /** The compiled body of an InferenceService carries the cleaned resources as they are. */
  lemma {:induction false} BodyCarriesResources(
    cr: Json, data: seq<Entry>, uri: Option<string>, request: map<string, Tier>)
    requires WellShaped(InferenceService, cr) && RequestResources(request).Some?
    ensures var subs := SubPatches(InferenceService, cr, data, uri, RequestResources(request));
            && (forall p | p in subs :: p.Obj?)
            && At(Body(SpecOf(cr), subs, |subs|), RESOURCES) == Some(Obj(CleanResources(request)))
  {
    var start, r := SpecOf(cr), Obj(CleanResources(request));
    var subs := SubPatches(InferenceService, cr, data, uri, Some(r));
    var n := |subs| - 1;
    SubPatchesAreObjects(InferenceService, cr, data, uri, Some(r));
    NoNamedLists(request);
    PathOfPatch("resources", r);
    hide At, CleanResources, WellShaped, DeepMerged, SpecOf, SubPatches, HasNamedList, Working, ExpandNamedLists;
    OthersAreSilent(cr, data, uri, r);
    BodyKeepsAbsence(start, subs, n, RESOURCES);
    NothingToExpand(subs[n], Working(start, subs, n));
    MergedPath(Body(start, subs, n), subs[n], RESOURCES);
  }

  lemma {:induction false} IsvcResources(
    cr: Json, data: seq<Entry>, uri: Option<string>, request: map<string, Tier>)
    requires WellShaped(InferenceService, cr) && RequestResources(request).Some?
    requires forall p | p in SubPatches(InferenceService, cr, data, uri, RequestResources(request)) :: p.Obj?
    ensures HeldResources(InferenceService, Patched(InferenceService, cr, data, uri, request)) ==
            MergePatch(HeldResources(InferenceService, cr), Obj(CleanResources(request)))
  {
    hide At, CleanResources, WellShaped, SubPatches, Body, SpecOf, MergePatch, HeldResources;
    BodyCarriesResources(cr, data, uri, request);
    var subs := SubPatches(InferenceService, cr, data, uri, RequestResources(request));
    ResourcesAt(cr);
    ResourcesAt(Patched(InferenceService, cr, data, uri, request));
    PatchedPath(cr, Body(SpecOf(cr), subs, |subs|), RESOURCES);
  }

  /** Whenever one PATCH means its edits, the resources are those that the edits leave. */
  lemma {:induction false} EditedResources(
    kind: CrKind, cr: Json, data: seq<Entry>, uri: Option<string>, request: map<string, Tier>)
    requires WellShaped(kind, cr) && Tame(SpecOf(cr))
    requires SubPatches(kind, cr, data, uri, RequestResources(request)) != []
    requires kind.LLMInferenceService? || RequestResources(request).None?
    ensures forall p | p in SubPatches(kind, cr, data, uri, RequestResources(request)) :: p.Obj?
    ensures HeldResources(kind, Patched(kind, cr, data, uri, request)) ==
            if RequestResources(request).None? then HeldResources(kind, cr)
            else MergedInto(HeldResources(kind, cr), RequestResources(request).value)
  {
    var res := RequestResources(request);
    var subs := SubPatches(kind, cr, data, uri, res);
    var n := |SubPatches(kind, cr, data, uri, None)|;
    assert cr.Obj?;
    hide SubPatches, CleanResources, WellShaped, Body, MergePatch, HeldResources, Tame, MergedInto, Edited,
         DeletesFromHeldTiers, With;
    RequestOnServer(kind, cr, data, uri, request);
    if res.None? { NoResources(cr, request); }
    OthersLeaveResources(kind, cr, data, uri, res);
    var edited := Edited(SpecOf(cr), subs, |subs|);
    if res.Some? {
      EditedOneMore(SpecOf(cr), subs, |subs|);
      MergedResources(kind, Edited(SpecOf(cr), subs, n), res.value);
    }
    AreObjects(kind, cr, data, uri, res);
    ResourcesOfSpec(kind, cr, edited);
  }

  lemma {:induction false} MergedResources(kind: CrKind, base: Json, r: Json)
    requires r.Obj?
    ensures HeldResources(kind, MergedInto(base, BuildResourcesPatch(kind, r))) ==
            MergedInto(HeldResources(kind, base), r)
  {
    hide MergedInto, MainOf, Carrier;
    MergedCarrier(kind, base, "resources", r, "resources");
  }

  lemma AreObjects(kind: CrKind, cr: Json, data: seq<Entry>, uri: Option<string>, resources: Option<Json>)
    requires WellShaped(kind, cr) && Tame(SpecOf(cr)) && (resources.Some? ==> resources.value.Obj?)
    ensures var subs := SubPatches(kind, cr, data, uri, resources); Edited(SpecOf(cr), subs, |subs|).Obj?
  {
    hide SubPatches, WellShaped, Tame, SpecOf, SpecPatch;
    RequestIsSequencable(kind, cr, data, uri, resources);
    assert IsSpecOnly(SpecOf(cr)) by { hide *; OnlySpec(cr); }
    EditedIsSpecOnly(SpecOf(cr), SubPatches(kind, cr, data, uri, resources),
                     |SubPatches(kind, cr, data, uri, resources)|);
    hide Edited;
  }

  lemma OnlySpec(cr: Json)
    ensures IsSpecOnly(SpecOf(cr))
  {
  }

  /**
   * Every resource key after one PATCH. What is asked for is there, what is not named stays, and what is to be
   * deleted is gone, except that the main container of an LLMInferenceService gets a null for a key deleted from
   * a tier that it does not hold as an object.
   */
  lemma {:induction false} ResourcesOnServer(
    kind: CrKind, cr: Json, data: seq<Entry>, uri: Option<string>, request: map<string, Tier>, t: string, k: string)
    requires WellShaped(kind, cr) && Tame(SpecOf(cr))
    ensures forall p | p in SubPatches(kind, cr, data, uri, RequestResources(request)) :: p.Obj?
    ensures At(HeldResources(kind, Patched(kind, cr, data, uri, request)), [t, k]) ==
            if kind.InferenceService? then PatchedKey(HeldResources(kind, cr), request, t, k)
            else MergedKey(HeldResources(kind, cr), request, t, k)
  {
    var held, res := HeldResources(kind, cr), RequestResources(request);
    if res.None? && t in request { EmptyTier(request, t); }
    ResourceKey(held, request, t, k);
    SubPatchesAreObjects(kind, cr, data, uri, res);
    if SubPatches(kind, cr, data, uri, res) == [] {
      assert MergePatch(cr, EMPTY_OBJ).fields == cr.fields;
    } else {
      hide SubPatches, CleanResources, WellShaped, Patched, HeldResources, At, MergePatch, MergedInto, Tame;
      if kind.InferenceService? && res.Some? {
        IsvcResources(cr, data, uri, request);
      } else {
        EditedResources(kind, cr, data, uri, request);
      }
    }
  }

  lemma EmptyTier(request: map<string, Tier>, t: string)
    requires CleanResources(request) == map[] && t in request
    ensures request[t] == map[]
  {
    assert request[t] != map[] <==> t in CleanResources(request);
  }

  /** The keys that a request asks to delete. */
  predicate Deletes(request: map<string, Tier>, t: string, k: string) {
    t in request && k in request[t] && request[t][k] == ""
  }

  /**
   * No key that a request asks to delete is there after the PATCH: for an InferenceService always, for an
   * LLMInferenceService exactly when the main container of a name-keyed list holds their tiers as objects.
   */
  lemma {:induction false} DeletedKeysAreGone(
    kind: CrKind, cr: Json, data: seq<Entry>, uri: Option<string>, request: map<string, Tier>)
    requires WellShaped(kind, cr) && Tame(SpecOf(cr))
    ensures forall p | p in SubPatches(kind, cr, data, uri, RequestResources(request)) :: p.Obj?
    ensures (forall t, k | Deletes(request, t, k) ::
               At(HeldResources(kind, Patched(kind, cr, data, uri, request)), [t, k]).None?) <==>
            kind.InferenceService? || DeletesFromHeldTiers(kind, cr, request)
  {
    SubPatchesAreObjects(kind, cr, data, uri, RequestResources(request));
    hide SubPatches, CleanResources, WellShaped, Patched, HeldResources, At, Tame, SpecOf, RequestResources;
    var after := HeldResources(kind, Patched(kind, cr, data, uri, request));
    forall t, k
      ensures At(after, [t, k]) ==
              if kind.InferenceService? then PatchedKey(HeldResources(kind, cr), request, t, k)
              else MergedKey(HeldResources(kind, cr), request, t, k)
    {
      ResourcesOnServer(kind, cr, data, uri, request, t, k);
    }
    GoneExactly(HeldResources(kind, cr), after, request, kind.InferenceService?);
  }

  lemma GoneExactly(held: Json, after: Json, request: map<string, Tier>, patched: bool)
    requires forall t, k :: At(after, [t, k]) ==
               if patched then PatchedKey(held, request, t, k) else MergedKey(held, request, t, k)
    ensures (forall t, k | Deletes(request, t, k) :: At(after, [t, k]).None?) <==>
            patched || forall t, k | t in request && k in request[t] && request[t][k] == "" :: Field(held, t).Obj?
  {
    hide At;
    if !patched && forall t, k | Deletes(request, t, k) :: At(after, [t, k]).None? {
      forall t, k | t in request && k in request[t] && request[t][k] == "" ensures Field(held, t).Obj? {
        assert Deletes(request, t, k);
        assert At(after, [t, k]) == MergedKey(held, request, t, k);
      }
    }
  }
}
