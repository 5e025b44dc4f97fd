/** Changing arguments by one merge patch and by editing and recreating the resource come to the same. */
module PatchVersusApply {
  import opened JsonValues
  import opened PatchAlgebra
  import opened PatchBody
  import opened Args
  import opened Adapters

  // ----- Patches with one member

  lemma OneMemberPatch(t: Json, k: string, v: Json)
    requires !v.Null?
    ensures MergePatch(t, One(k, v)) == With(t, k, MergePatch(Field(t, k), v))
  {
    assert MergePatch(t, One(k, v)).fields == With(t, k, MergePatch(Field(t, k), v)).fields;
  }

  lemma OneMemberExpand(k: string, v: Json, current: Json)
    ensures ExpandNamedLists(One(k, v), current) == One(k, ExpandNamedLists(v, Field(current, k)))
  {
    assert ExpandNamedLists(One(k, v), current).fields == One(k, ExpandNamedLists(v, Field(current, k))).fields;
  }

  lemma SingleBody(start: Json, p: Json)
    requires p.Obj?
    ensures Body(start, [p], 1) == ExpandNamedLists(p, start)
  {
    var e := ExpandNamedLists(p, start);
    ExpandKeepsShape(p, start);
    hide ExpandNamedLists;
    assert Body(start, [p], 0) == EMPTY_OBJ && Working(start, [p], 0) == start;
    assert DeepMerged(EMPTY_OBJ, e).fields == e.fields;
  }

  /** Three nested members, the innermost no object: the patch writes that one place. */
  lemma NestedPatch(cr: Json, a: string, b: string, c: string, leaf: Json)
    requires AbsentOrObject(cr, a) && AbsentOrObject(Sub(cr, a), b)
    requires leaf.Obj? || leaf.Arr?
    ensures MergePatch(cr, One(a, One(b, One(c, leaf)))) ==
            With(cr, a, With(Sub(cr, a), b, With(Sub(Sub(cr, a), b), c,
              MergePatch(Field(Sub(Sub(cr, a), b), c), leaf))))
  {
    hide MergePatch;
    OneMemberPatch(cr, a, One(b, One(c, leaf)));
    OneMemberPatch(Field(cr, a), b, One(c, leaf));
    OneMemberPatch(Field(Field(cr, a), b), c, leaf);
    assert Field(Field(Field(cr, a), b), c) == Field(Sub(Sub(cr, a), b), c);
  }

  // ----- InferenceService

  lemma IsvcPatchAgrees(cr: Json, newer: seq<Entry>)
    requires IsvcShape(cr)
    ensures MergePatch(cr, Body(SpecOf(cr), [BuildArgsPatch(InferenceService, cr, newer)], 1)) ==
            Applied(InferenceService, cr, newer)
  {
    var leaf := FromStrings(Overridden(IsvcArgs(cr), newer));
    var p := BuildArgsPatch(InferenceService, cr, newer);
    hide Overridden, IsvcArgs;
    assert !HasNamedList(p) by { PlainLeaf(leaf); }
    SingleBody(SpecOf(cr), p);
    NothingToExpand(p, SpecOf(cr));
    NestedPatch(cr, "spec", "predictor", "model", One("args", leaf));
    OneMemberPatch(Model(cr), "args", leaf);
    assert MergePatch(Field(Predictor(cr), "model"), One("args", leaf)) == With(Model(cr), "args", leaf) by {
      OneMemberPatch(Field(Predictor(cr), "model"), "args", leaf);
    }
  }

  lemma PlainLeaf(leaf: Json)
    requires StrList(leaf)
    ensures !HasNamedList(One("spec", One("predictor", One("model", One("args", leaf)))))
  {
    if leaf.items != [] {
      assert leaf.items[0].Str? && !HasName(leaf.items[0]);
    }
    assert !HasNamedList(leaf);
    assert !HasNamedList(One("args", leaf));
    assert !HasNamedList(One("model", One("args", leaf)));
    assert !HasNamedList(One("predictor", One("model", One("args", leaf))));
  }

  // ----- LLMInferenceService

  /** A list the router can merge by name: absent, empty, or named with distinct names. */
  predicate Mergeable(j: Json) {
    j.Null? || j == Arr([]) || (IsNamedList(j) && DistinctNames(j.items))
  }

  predicate Patchable(kind: CrKind, cr: Json) {
    kind.LLMInferenceService? ==>
      Mergeable(Field(Template(cr), "containers")) && Mergeable(MemberOf(Containers(cr), MAIN_CONTAINER, "env"))
  }

  lemma FirstIsLast(items: seq<Json>, name: string)
    requires DistinctNames(items) && forall i | 0 <= i < |items| :: HasName(items[i])
    ensures IndexByName(items, Str(name)) == FindNamed(items, name)
  {
    hide HasName, NameOf;
    assert forall i | 0 <= i < |items| :: NameIs(items[i], Str(name)) <==> Field(items[i], "name") == Str(name) by {
      forall i | 0 <= i < |items| ensures NameIs(items[i], Str(name)) <==> Field(items[i], "name") == Str(name) {
        NameIsField(items[i], name);
      }
    }
    var at := FindNamed(items, name);
    if at.Some? {
      NameIsField(items[at.value], name);
      IndexOfOwnName(items, at.value);
    }
  }

  lemma NameIsField(item: Json, name: string)
    requires HasName(item)
    ensures NameIs(item, Str(name)) <==> Field(item, "name") == Str(name)
    ensures NameIs(item, Str(name)) ==> NameOf(item) == Str(name)
  {
  }

  lemma MergeNamedPair(a: Json, name: string, key: string, v: Json)
    requires a.Obj? && Field(a, "name") == Str(name) && key != "name" && !v.Null?
    ensures MergedInto(a, With(Called(name), key, v)) == With(a, key, MergedInto(Field(a, key), v))
  {
    var r := MergedInto(a, With(Called(name), key, v));
    assert MergedInto(Str(name), Str(name)) == Str(name);
    assert r.fields == With(a, key, MergedInto(Field(a, key), v)).fields;
  }

  /** A one-item named patch over a mergeable list: the in-place rewrite of that item. */
  lemma OneItemExpand(current: Json, name: string, key: string, v: Json, v': Json)
    requires Mergeable(current) && key != "name" && !v.Null?
    requires v' == MergedInto(MemberOf(ListOf(current), name, key), v)
    ensures ExpandNamedLists(Arr([With(Called(name), key, v)]), current) == Arr(Upsert(ListOf(current), name, key, v'))
    ensures MergedInto(current, Arr([With(Called(name), key, v)])) == Arr(Upsert(ListOf(current), name, key, v'))
  {
    var item := With(Called(name), key, v);
    assert HasName(item) && NameOf(item) == Str(name);
    if IsNamedList(current) {
      var items := current.items;
      FirstIsLast(items, name);
      var at := FindNamed(items, name);
      if at.Some? {
        MergeNamedPair(items[at.value], name, key, v);
      } else {
        assert v' == v by { MergeOverNothing(v); }
      }
      hide MergedInto, FindNamed, IndexByName;
      OneItemMerge(current, item);
      assert IsNamedList(Arr([item]));
      ExpandOfNamed(Arr([item]), current);
    } else {
      MergeOverNothing(v);
      MergeOverNothing(Arr([item]));
      assert Upsert([], name, key, v) == [item];
    }
  }

  lemma MergeOverNothing(v: Json)
    requires !v.Null?
    ensures MergedInto(Null, v) == v && MergedInto(Arr([]), v) == v
  {
  }

  lemma ExpandOfNamed(patch: Json, current: Json)
    requires IsNamedList(patch) && IsNamedList(current)
    ensures ExpandNamedLists(patch, current) == MergedInto(current, patch)
  {
  }

  lemma LlmPatchAgrees(cr: Json, newer: seq<Entry>)
    requires LlmShape(cr) && Patchable(LLMInferenceService, cr)
    ensures MergePatch(cr, Body(SpecOf(cr), [BuildArgsPatch(LLMInferenceService, cr, newer)], 1)) ==
            Applied(LLMInferenceService, cr, newer)
  {
    var value := NewValue(AdditionalArgs(cr), newer);
    var current := Field(Template(cr), "containers");
    var envPatch := Arr([With(Called(ADDITIONAL_ARGS), "value", Str(value))]);
    var list := Arr([With(Called(MAIN_CONTAINER), "env", envPatch)]);
    var p := One("spec", One("template", One("containers", list)));
    assert p == BuildArgsPatch(LLMInferenceService, cr, newer);
    var envJson := MemberOf(Containers(cr), MAIN_CONTAINER, "env");
    var envNew := Arr(Upsert(Env(cr), ADDITIONAL_ARGS, "value", Str(value)));
    OneItemExpand(envJson, ADDITIONAL_ARGS, "value", Str(value), Str(value));
    OneItemExpand(current, MAIN_CONTAINER, "env", envPatch, envNew);
    var listNew := Arr(Upsert(Containers(cr), MAIN_CONTAINER, "env", envNew));
    hide NewValue, Upsert, With, MemberOf, MergedInto, MergePatch, ExpandNamedLists, LlmShape;
    SingleBody(SpecOf(cr), p);
    OneMemberExpand("spec", One("template", One("containers", list)), SpecOf(cr));
    OneMemberExpand("template", One("containers", list), Field(SpecOf(cr), "spec"));
    OneMemberExpand("containers", list, Field(Field(SpecOf(cr), "spec"), "template"));
    NestedShape(cr);
    NestedPatch(cr, "spec", "template", "containers", listNew);
    ListReplaced(Field(Template(cr), "containers"), listNew);
  }

  lemma NestedShape(cr: Json)
    requires LlmShape(cr)
    ensures AbsentOrObject(cr, "spec") && AbsentOrObject(Sub(cr, "spec"), "template")
    ensures Field(Field(Field(SpecOf(cr), "spec"), "template"), "containers") == Field(Template(cr), "containers")
  {
  }

  lemma ListReplaced(t: Json, list: Json)
    requires list.Arr?
    ensures MergePatch(t, list) == list
  {
  }

  /** For both resource kinds: the PATCH endpoint's body, applied by the server, is the in-place edit. */
  lemma PatchAgreesWithApply(kind: CrKind, cr: Json, newer: seq<Entry>)
    requires WellShaped(kind, cr) && Patchable(kind, cr)
    ensures MergePatch(cr, Body(SpecOf(cr), [BuildArgsPatch(kind, cr, newer)], 1)) == Applied(kind, cr, newer)
  {
    if kind.InferenceService? { IsvcPatchAgrees(cr, newer); } else { LlmPatchAgrees(cr, newer); }
  }
}
