/** The loops of the configuration router and of `deep_merge`, proved against their specifications. */
module ConfigRouter {
  import opened JsonValues
  import opened PatchAlgebra
  import opened PatchBody

  method MergeInto(base: Json, patch: Json) returns (merged: Json)
    ensures merged == MergedInto(base, patch)
    decreases patch
  {
    if base.Obj? && patch.Obj? {
      var fields, todo := base.fields, patch.fields.Keys;
      while todo != {}
        invariant todo <= patch.fields.Keys
        invariant forall k :: k in fields <==>
                    if k in patch.fields && k !in todo then !patch.fields[k].Null? else k in base.fields
        invariant forall k | k in fields :: fields[k] ==
                    if k in patch.fields && k !in todo then MergedInto(Field(base, k), patch.fields[k])
                    else base.fields[k]
        decreases todo
      {
        var k :| k in todo;
        todo := todo - {k};
        if patch.fields[k].Null? {
          fields := fields - {k};
        } else {
          var value := MergeInto(Field(Obj(fields), k), patch.fields[k]);
          fields := fields[k := value];
        }
      }
      assert fields == MergedInto(base, patch).fields;
      merged := Obj(fields);
    } else if IsNamedList(base) && IsNamedList(patch) {
      var list, n := base.items, 0;
      while n < |patch.items|
        invariant n <= |patch.items| && list == MergedItems(base, patch, n)
      {
        var item := patch.items[n];
        match IndexByName(base.items, NameOf(item)) {
          case None =>
            list := list + [item];
          case Some(i) =>
            var value := MergeInto(list[i], item);
            list := list[i := value];
        }
        n := n + 1;
      }
      merged := Arr(list);
    } else {
      merged := patch;
    }
  }

  method DeepMerge(base: Json, over: Json) returns (result: Json)
    requires base.Obj? && over.Obj?
    ensures result == DeepMerged(base, over)
    decreases over
  {
    var fields, todo := base.fields, over.fields.Keys;
    while todo != {}
      invariant todo <= over.fields.Keys
      invariant fields.Keys == base.fields.Keys + (over.fields.Keys - todo)
      invariant forall k | k in fields :: fields[k] ==
                  if k in over.fields && k !in todo then DeepMerged(base, over).fields[k] else base.fields[k]
      decreases todo
    {
      var k :| k in todo;
      todo := todo - {k};
      if k in fields && fields[k].Obj? && over.fields[k].Obj? {
        var value := DeepMerge(fields[k], over.fields[k]);
        fields := fields[k := value];
      } else {
        fields := fields[k := over.fields[k]];
      }
    }
    assert fields == DeepMerged(base, over).fields;
    result := Obj(fields);
  }

  /** `current` is what the API server returned; it is read on the slow path only. */
  method BuildPatchBody(current: Json, subs: seq<Json>) returns (body: Json)
    requires current.Obj? && forall p | p in subs :: p.Obj?
    ensures body == Body(SpecOf(current), subs, |subs|)
  {
    hide MergedInto, DeepMerged, ExpandNamedLists, HasNamedList, SpecOf;
    var start := SpecOf(current);
    body := EMPTY_OBJ;
    if forall i | 0 <= i < |subs| :: !HasNamedList(subs[i]) {
      for n := 0 to |subs|
        invariant body == PlainBody(subs, n)
      {
        body := DeepMerge(body, subs[n]);
      }
      FastPathAgrees(start, subs, |subs|);
    } else {
      var working := start;
      for n := 0 to |subs|
        invariant body == Body(start, subs, n) && working == Working(start, subs, n)
      {
        var expanded := ExpandNamedLists(subs[n], working);
        ExpandKeepsShape(subs[n], working);
        body := DeepMerge(body, expanded);
        working := MergeInto(working, expanded);
      }
    }
  }
}
