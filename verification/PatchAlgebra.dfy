/** The merge functions of the vLLM configuration router, and what they mean in terms of RFC 7396. */
module PatchAlgebra {
  import opened JsonValues

  datatype Option<+T> = None | Some(value: T)

  // ----- Name-keyed lists

  predicate HasName(item: Json) {
    item.Obj? && "name" in item.fields
  }

  predicate IsNamedList(j: Json) {
    j.Arr? && j.items != [] && forall i | 0 <= i < |j.items| :: HasName(j.items[i])
  }

  function NameOf(item: Json): Json {
    Field(item, "name")
  }

  predicate NameIs(item: Json, name: Json) {
    HasName(item) && NameOf(item) == name
  }

  /** Reaches through dictionaries only. */
  predicate HasNamedList(node: Json) {
    if node.Obj? then exists k | k in node.fields :: HasNamedList(node.fields[k])
    else IsNamedList(node)
  }

  /** The last position holding `name`: what a dictionary built left to right remembers. */
  function IndexByName(items: seq<Json>, name: Json): (r: Option<nat>)
    ensures r.Some? ==> r.value < |items| && NameIs(items[r.value], name)
    ensures r.None? <==> forall i | 0 <= i < |items| :: !NameIs(items[i], name)
  {
    if items == [] then None
    else if NameIs(items[|items| - 1], name) then Some(|items| - 1)
    else IndexByName(items[..|items| - 1], name)
  }

  // ----- The merge functions

  function MergedInto(base: Json, patch: Json): Json
    decreases patch, 1, 0
  {
    if base.Obj? && patch.Obj? then
      Obj(map k | k in base.fields.Keys + patch.fields.Keys && !(k in patch.fields && patch.fields[k].Null?) ::
            if k in patch.fields then MergedInto(Field(base, k), patch.fields[k]) else base.fields[k])
    else if IsNamedList(base) && IsNamedList(patch) then
      Arr(MergedItems(base, patch, |patch.items|))
    else patch
  }

  /** The list after the first `n` items of `patch` have been merged into `base`. */
  function MergedItems(base: Json, patch: Json, n: nat): (r: seq<Json>)
    requires IsNamedList(base) && IsNamedList(patch) && n <= |patch.items|
    ensures |r| >= |base.items|
    decreases patch, 0, n
  {
    if n == 0 then base.items
    else
      var merged, item := MergedItems(base, patch, n - 1), patch.items[n - 1];
      match IndexByName(base.items, NameOf(item))
      case None => merged + [item]
      case Some(i) => merged[i := MergedInto(merged[i], item)]
  }

  /** Named lists in `patch` replaced by the merged list, so that RFC 7396 does not drop siblings. */
  function ExpandNamedLists(patch: Json, current: Json): Json
    decreases patch
  {
    if patch.Obj? then Obj(map k | k in patch.fields :: ExpandNamedLists(patch.fields[k], Field(current, k)))
    else if IsNamedList(patch) && IsNamedList(current) then MergedInto(current, patch)
    else patch
  }

  function DeepMerged(base: Json, over: Json): (r: Json)
    requires base.Obj? && over.Obj?
    ensures r.Obj?
    decreases over
  {
    Obj(map k | k in base.fields.Keys + over.fields.Keys ::
          if k !in over.fields then base.fields[k]
          else if k in base.fields && base.fields[k].Obj? && over.fields[k].Obj?
          then DeepMerged(base.fields[k], over.fields[k])
          else over.fields[k])
  }

  // ----- deep_merge composes merge patches, and exactly when

  /** Where `p2` has an object, `p1` has an object or nothing. */
  predicate Compatible(p1: Json, p2: Json)
    decreases p2
  {
    p1.Obj? && p2.Obj? ==>
      forall k | k in p1.fields && k in p2.fields && p2.fields[k].Obj? ::
        p1.fields[k].Obj? && Compatible(p1.fields[k], p2.fields[k])
  }

  ghost predicate Composes(t: Json, p1: Json, p2: Json)
    requires p1.Obj? && p2.Obj?
  {
    MergePatch(MergePatch(t, p1), p2) == MergePatch(t, DeepMerged(p1, p2))
  }

  lemma {:induction false} CompatiblePatchesCompose(t: Json, p1: Json, p2: Json)
    requires p1.Obj? && p2.Obj? && Compatible(p1, p2)
    ensures Composes(t, p1, p2)
    decreases p2
  {
    var once, m := MergePatch(t, p1), DeepMerged(p1, p2);
    var lhs, rhs := MergePatch(once, p2), MergePatch(t, m);
    assert lhs.fields.Keys == rhs.fields.Keys;
    forall k | k in lhs.fields
      ensures lhs.fields[k] == rhs.fields[k]
    {
      assert Field(once, k) == if k in p1.fields then MergePatch(Field(t, k), p1.fields[k]) else Field(t, k);
      if k in p2.fields {
        assert lhs.fields[k] == MergePatch(Field(once, k), p2.fields[k]);
        assert rhs.fields[k] == MergePatch(Field(t, k), m.fields[k]);
        if p2.fields[k].Obj? && k in p1.fields {
          CompatiblePatchesCompose(Field(t, k), p1.fields[k], p2.fields[k]);
          assert m.fields[k] == DeepMerged(p1.fields[k], p2.fields[k]);
        } else {
          assert m.fields[k] == p2.fields[k];
        }
      } else if k in p1.fields {
        assert rhs.fields[k] == MergePatch(Field(t, k), p1.fields[k]);
      }
    }
    assert lhs.fields == rhs.fields;
  }

  /** A target on which two incompatible patches do not compose. */
  lemma {:induction false} IncompatiblePatchesClash(p1: Json, p2: Json) returns (t: Json)
    requires p1.Obj? && p2.Obj? && !Compatible(p1, p2)
    ensures !Composes(t, p1, p2)
    decreases p2
  {
    var k :| k in p1.fields && k in p2.fields && p2.fields[k].Obj? &&
             !(p1.fields[k].Obj? && Compatible(p1.fields[k], p2.fields[k]));
    var q1, q2 := p1.fields[k], p2.fields[k];
    var inner;
    if q1.Obj? {
      inner := IncompatiblePatchesClash(q1, q2);
    } else {
      var z := FreshKey(q2.fields.Keys);
      inner := Obj(map[z := Bool(true)]);
      assert z in MergePatch(inner, q2).fields;
    }
    t := Obj(map[k := inner]);
    var once, m := MergePatch(t, p1), DeepMerged(p1, p2);
    assert k in MergePatch(once, p2).fields;
    assert Field(t, k) == inner && Field(once, k) == MergePatch(inner, q1);
    assert MergePatch(once, p2).fields[k] == MergePatch(Field(once, k), q2);
    assert MergePatch(t, m).fields[k] == MergePatch(inner, m.fields[k]);
  }

  /** `deep_merge` is composition of merge patches on every target exactly for compatible patches. */
  lemma {:induction false} DeepMergeComposesExactly(p1: Json, p2: Json)
    requires p1.Obj? && p2.Obj?
    ensures (forall t :: Composes(t, p1, p2)) <==> Compatible(p1, p2)
  {
    if Compatible(p1, p2) {
      forall t ensures Composes(t, p1, p2) { CompatiblePatchesCompose(t, p1, p2); }
    } else {
      var t := IncompatiblePatchesClash(p1, p2);
    }
  }

  // ----- One edit: the expanded patch under RFC 7396 is _merge_into, and exactly when

  /** Every object of the patch that lands on something other than an object deletes nothing. */
  predicate Grounded(base: Json, patch: Json)
    decreases patch
  {
    patch.Obj? ==>
      if base.Obj? then forall k | k in patch.fields :: Grounded(Field(base, k), patch.fields[k])
      else NoNullMembers(patch)
  }

  lemma ExpandKeepsShape(patch: Json, current: Json)
    ensures ExpandNamedLists(patch, current).Null? <==> patch.Null?
    ensures ExpandNamedLists(patch, current).Obj? <==> patch.Obj?
  {
  }

  lemma {:induction false} ExpandOverNothing(patch: Json, current: Json)
    requires !current.Obj? && (patch.Obj? || !IsNamedList(current))
    ensures ExpandNamedLists(patch, current) == patch
    decreases patch
  {
    if patch.Obj? {
      forall k | k in patch.fields
        ensures ExpandNamedLists(patch.fields[k], Null) == patch.fields[k]
      {
        ExpandOverNothing(patch.fields[k], Null);
      }
      assert ExpandNamedLists(patch, current).fields == patch.fields;
    }
  }

  /** The expanded patch, applied by the server, does what `_merge_into` does: exactly for grounded patches. */
  lemma {:induction false} ExpandedPatchIsMergeExactly(base: Json, patch: Json)
    ensures MergePatch(base, ExpandNamedLists(patch, base)) == MergedInto(base, patch) <==> Grounded(base, patch)
    decreases patch
  {
    if patch.Obj? && base.Obj? {
      var e := ExpandNamedLists(patch, base);
      var lhs, rhs := MergePatch(base, e), MergedInto(base, patch);
      forall k | k in patch.fields ensures e.fields[k].Null? <==> patch.fields[k].Null? {
        ExpandKeepsShape(patch.fields[k], Field(base, k));
      }
      assert lhs.fields.Keys == rhs.fields.Keys;
      forall k | k in patch.fields && !patch.fields[k].Null?
        ensures k in rhs.fields && (lhs.fields[k] == rhs.fields[k] <==> Grounded(Field(base, k), patch.fields[k]))
      {
        ExpandedPatchIsMergeExactly(Field(base, k), patch.fields[k]);
      }
      if Grounded(base, patch) {
        assert lhs.fields == rhs.fields;
      } else {
        var k :| k in patch.fields && !Grounded(Field(base, k), patch.fields[k]);
        assert lhs.fields[k] != rhs.fields[k];
      }
    } else if patch.Obj? {
      ExpandOverNothing(patch, base);
      MergePatchOverNonObject(base, patch);
    }
  }

  // ----- Named lists: what a merge keeps, and absorption

  /** Reachable named lists have distinct names, and no reachable key carries null. */
  predicate Tame(j: Json) {
    match j
    case Obj(m) => forall k | k in m :: !m[k].Null? && Tame(m[k])
    case Arr(items) => IsNamedList(j) ==> DistinctNames(items) && forall i | 0 <= i < |items| :: Tame(items[i])
    case _ => true
  }

  predicate DistinctNames(items: seq<Json>) {
    forall i, j | 0 <= i < j < |items| && HasName(items[j]) :: !NameIs(items[i], NameOf(items[j]))
  }

  lemma IndexOfOwnName(items: seq<Json>, i: nat)
    requires i < |items| && HasName(items[i]) && DistinctNames(items)
    ensures IndexByName(items, NameOf(items[i])) == Some(i)
  {
    var j := IndexByName(items, NameOf(items[i])).value;
    if i < j {
      assert NameIs(items[i], NameOf(items[j]));
    }
  }

  /** The items of `patch[..n]` whose names `base` does not have. */
  function NewItems(base: seq<Json>, patch: seq<Json>, n: nat): seq<Json>
    requires n <= |patch| && forall i | 0 <= i < |patch| :: HasName(patch[i])
  {
    if n == 0 then []
    else NewItems(base, patch, n - 1) +
         if IndexByName(base, NameOf(patch[n - 1])).None? then [patch[n - 1]] else []
  }

  /** Old item `a` under the first `n` items of `patch`: merged with the one of its name, else as it was. */
  ghost predicate MergedByName(a: Json, patch: seq<Json>, n: nat, r: Json)
    requires HasName(a) && n <= |patch|
  {
    && (forall j | 0 <= j < n :: NameIs(patch[j], NameOf(a)) ==> r == MergedInto(a, patch[j]))
    && ((forall j | 0 <= j < n :: !NameIs(patch[j], NameOf(a))) ==> r == a)
  }

  lemma MergedByNothing(a: Json, patch: seq<Json>)
    requires HasName(a)
    ensures MergedByName(a, patch, 0, a)
  {
  }

  lemma MergedByNameStep(a: Json, patch: seq<Json>, n: nat, before: Json, r: Json)
    requires HasName(a) && 0 < n <= |patch| && DistinctNames(patch) && HasName(patch[n - 1])
    requires MergedByName(a, patch, n - 1, before)
    requires r == if NameIs(patch[n - 1], NameOf(a)) then MergedInto(before, patch[n - 1]) else before
    ensures MergedByName(a, patch, n, r)
  {
    hide MergedInto, HasName, NameOf;
    if NameIs(patch[n - 1], NameOf(a)) {
      assert forall j | 0 <= j < n - 1 :: !NameIs(patch[j], NameOf(patch[n - 1]));
    }
  }

  lemma {:induction false} MergedItemsPointwise(base: Json, patch: Json, n: nat)
    requires IsNamedList(base) && IsNamedList(patch) && n <= |patch.items|
    requires DistinctNames(base.items) && DistinctNames(patch.items)
    ensures forall i | 0 <= i < |base.items| ::
              MergedByName(base.items[i], patch.items, n, MergedItems(base, patch, n)[i])
    decreases n
  {
    hide MergedInto, HasName, NameOf, MergedByName;
    if n > 0 {
      MergedItemsPointwise(base, patch, n - 1);
      var prev, r, item := MergedItems(base, patch, n - 1), MergedItems(base, patch, n), patch.items[n - 1];
      var at := IndexByName(base.items, NameOf(item));
      forall i | 0 <= i < |base.items|
        ensures MergedByName(base.items[i], patch.items, n, r[i])
      {
        IndexOfOwnName(base.items, i);
        assert at == Some(i) <==> NameIs(item, NameOf(base.items[i]));
        MergedByNameStep(base.items[i], patch.items, n, prev[i], r[i]);
      }
    } else {
      hide *;
      forall i | 0 <= i < |base.items| ensures MergedByName(base.items[i], patch.items, 0, base.items[i]) {
        MergedByNothing(base.items[i], patch.items);
      }
    }
  }

  lemma {:induction false} MergedItemsTail(base: Json, patch: Json, n: nat)
    requires IsNamedList(base) && IsNamedList(patch) && n <= |patch.items|
    ensures MergedItems(base, patch, n)[|base.items|..] == NewItems(base.items, patch.items, n)
    decreases n
  {
    hide MergedInto, HasName, NameOf;
    if n > 0 {
      MergedItemsTail(base, patch, n - 1);
      var prev, item := MergedItems(base, patch, n - 1), patch.items[n - 1];
      if IndexByName(base.items, NameOf(item)).None? {
        assert (prev + [item])[|base.items|..] == prev[|base.items|..] + [item];
      }
    }
  }

  /** A list that continues `base` name by name, and absorbs each of its items, absorbs `base`. */
  lemma {:induction false} ListAbsorbs(base: Json, r: seq<Json>, n: nat)
    requires IsNamedList(base) && DistinctNames(base.items) && IsNamedList(Arr(r))
    requires |base.items| <= |r| && n <= |r|
    requires forall i | 0 <= i < |base.items| ::
               NameIs(r[i], NameOf(base.items[i])) && MergedInto(base.items[i], r[i]) == r[i]
    requires forall i | |base.items| <= i < |r| :: IndexByName(base.items, NameOf(r[i])).None?
    ensures var m := MergedItems(base, Arr(r), n);
            && |m| == (if n <= |base.items| then |base.items| else n)
            && forall i | 0 <= i < |m| :: m[i] == if i < n then r[i] else base.items[i]
    decreases n
  {
    hide MergedInto, HasName, NameOf;
    if n > 0 {
      ListAbsorbs(base, r, n - 1);
      if n <= |base.items| {
        IndexOfOwnName(base.items, n - 1);
      }
    }
  }

  /** Merging a tame value into itself changes nothing. */
  lemma {:induction false} SelfMerge(j: Json)
    requires Tame(j)
    ensures MergedInto(j, j) == j
    decreases j
  {
    if j.Obj? {
      forall k | k in j.fields ensures MergedInto(j.fields[k], j.fields[k]) == j.fields[k] {
        SelfMerge(j.fields[k]);
      }
      assert MergedInto(j, j).fields == j.fields;
    } else if IsNamedList(j) {
      forall i | 0 <= i < |j.items| ensures MergedInto(j.items[i], j.items[i]) == j.items[i] {
        SelfMerge(j.items[i]);
      }
      assert Arr(j.items) == j;
      ListAbsorbs(j, j.items, |j.items|);
      assert MergedItems(j, j, |j.items|) == j.items;
    }
  }

  lemma MergedItemKeepsName(a: Json, b: Json)
    requires HasName(a) && Tame(a) && NameIs(b, NameOf(a))
    ensures NameIs(MergedInto(a, b), NameOf(a))
  {
    SelfMerge(NameOf(a));
  }

  lemma MergedByNameKeepsName(a: Json, patch: seq<Json>, n: nat, r: Json)
    requires HasName(a) && Tame(a) && n <= |patch| && MergedByName(a, patch, n, r)
    ensures NameIs(r, NameOf(a))
  {
    hide MergedInto;
    if j :| 0 <= j < n && NameIs(patch[j], NameOf(a)) {
      MergedItemKeepsName(a, patch[j]);
    }
  }

  lemma {:induction false} NewItemsFacts(base: seq<Json>, patch: seq<Json>, n: nat)
    requires n <= |patch| && forall i | 0 <= i < |patch| :: HasName(patch[i])
    ensures forall x | x in NewItems(base, patch, n) :: x in patch[..n] && IndexByName(base, NameOf(x)).None?
    ensures DistinctNames(patch) ==> DistinctNames(NewItems(base, patch, n))
    decreases n
  {
    if n > 0 {
      NewItemsFacts(base, patch, n - 1);
      var prev := NewItems(base, patch, n - 1);
      forall x | x in prev ensures x in patch[..n] {
        assert x in patch[..n - 1];
      }
      if DistinctNames(patch) {
        forall x | x in prev ensures !NameIs(x, NameOf(patch[n - 1])) {
          var i :| 0 <= i < n - 1 && patch[..n - 1][i] == x;
        }
      }
    }
  }

  lemma MergedItemsKeepNames(base: Json, patch: Json)
    requires IsNamedList(base) && IsNamedList(patch)
    requires DistinctNames(base.items) && DistinctNames(patch.items)
    requires forall i | 0 <= i < |base.items| :: Tame(base.items[i])
    ensures forall i | 0 <= i < |base.items| ::
              NameIs(MergedItems(base, patch, |patch.items|)[i], NameOf(base.items[i]))
  {
    hide MergedInto, MergedItems, HasName, NameOf, NameIs, DistinctNames, Tame, MergedByName;
    var r := MergedItems(base, patch, |patch.items|);
    MergedItemsPointwise(base, patch, |patch.items|);
    forall i | 0 <= i < |base.items| ensures NameIs(r[i], NameOf(base.items[i])) {
      MergedByNameKeepsName(base.items[i], patch.items, |patch.items|, r[i]);
    }
  }

  lemma NewItemsAreNamed(base: Json, patch: Json)
    requires IsNamedList(base) && IsNamedList(patch)
    ensures forall x | x in NewItems(base.items, patch.items, |patch.items|) :: HasName(x)
  {
    hide HasName, NameOf, IndexByName, NewItems;
    NewItemsFacts(base.items, patch.items, |patch.items|);
    assert patch.items[..|patch.items|] == patch.items;
  }

  lemma MergedListIsNamed(base: Json, patch: Json)
    requires IsNamedList(base) && IsNamedList(patch) && Tame(base) && DistinctNames(patch.items)
    ensures IsNamedList(Arr(MergedItems(base, patch, |patch.items|)))
    ensures forall i | 0 <= i < |base.items| ::
              NameIs(MergedItems(base, patch, |patch.items|)[i], NameOf(base.items[i]))
  {
    hide MergedInto, IndexByName, NewItems, HasName, NameOf, MergedItems;
    var r, n := MergedItems(base, patch, |patch.items|), |base.items|;
    MergedItemsKeepNames(base, patch);
    MergedItemsTail(base, patch, |patch.items|);
    NewItemsAreNamed(base, patch);
    hide Tame;
    forall i | n <= i < |r| ensures HasName(r[i]) {
      assert r[i] == r[n..][i - n];
    }
  }

  /** Old items keep place and name, merged by name; the items of new names follow in order. */
  lemma NamedListMergeKeepsSiblings(base: Json, patch: Json)
    requires IsNamedList(base) && IsNamedList(patch) && Tame(base) && DistinctNames(patch.items)
    ensures var r := MergedInto(base, patch);
            && IsNamedList(r) && |r.items| >= |base.items|
            && r.items[|base.items|..] == NewItems(base.items, patch.items, |patch.items|)
            && (forall i | 0 <= i < |base.items| ::
                  MergedByName(base.items[i], patch.items, |patch.items|, r.items[i]))
            && (forall i | 0 <= i < |base.items| :: NameIs(r.items[i], NameOf(base.items[i])))
  {
    hide IndexByName, NewItems, HasName, NameOf, MergedByName, MergedItems;
    MergedListIsNamed(base, patch);
    MergedItemsPointwise(base, patch, |patch.items|);
    MergedItemsTail(base, patch, |patch.items|);
  }

  /** Distinct old names, then distinct names that are none of the old. */
  lemma DistinctNamesExtend(kept: seq<Json>, r: seq<Json>)
    requires |kept| <= |r| && DistinctNames(kept) && DistinctNames(r[|kept|..])
    requires forall i | 0 <= i < |kept| :: HasName(kept[i]) && NameIs(r[i], NameOf(kept[i]))
    requires forall x | x in r[|kept|..] :: HasName(x) && IndexByName(kept, NameOf(x)).None?
    ensures DistinctNames(r)
    ensures forall i | |kept| <= i < |r| :: HasName(r[i]) && IndexByName(kept, NameOf(r[i])).None?
  {
    hide HasName, NameOf, IndexByName;
    var n, tail := |kept|, r[|kept|..];
    forall i | n <= i < |r| ensures r[i] == tail[i - n] && r[i] in tail {
    }
    forall i, j | 0 <= i < j < |r| && HasName(r[j])
      ensures !NameIs(r[i], NameOf(r[j]))
    {
      if j < n {
        assert !NameIs(kept[i], NameOf(kept[j]));
      } else if i < n {
        assert IndexByName(kept, NameOf(r[j])).None?;
        assert !NameIs(kept[i], NameOf(r[j]));
      } else {
        assert !NameIs(tail[i - n], NameOf(tail[j - n]));
      }
    }
  }

  /** The merged list has distinct names again. */
  lemma NamedListMergeKeepsDistinctNames(base: Json, patch: Json)
    requires IsNamedList(base) && IsNamedList(patch) && Tame(base) && DistinctNames(patch.items)
    ensures var r := MergedInto(base, patch);
            && IsNamedList(r) && DistinctNames(r.items) && |r.items| >= |base.items|
            && forall i | |base.items| <= i < |r.items| ::
                 IndexByName(base.items, NameOf(r.items[i])).None?
  {
    NamedListMergeKeepsSiblings(base, patch);
    NewItemsFacts(base.items, patch.items, |patch.items|);
    var r := MergedInto(base, patch);
    hide MergedInto, NewItems, IndexByName, MergedByName, HasName, NameOf;
    DistinctNamesExtend(base.items, r.items);
  }

  lemma {:induction false} MergeKeepsTame(base: Json, patch: Json)
    requires Tame(base) && Tame(patch)
    ensures Tame(MergedInto(base, patch))
    decreases patch
  {
    var r := MergedInto(base, patch);
    if base.Obj? && patch.Obj? {
      forall k | k in r.fields ensures !r.fields[k].Null? && Tame(r.fields[k]) {
        if k in patch.fields { MergeKeepsTame(Field(base, k), patch.fields[k]); }
      }
    } else if IsNamedList(base) && IsNamedList(patch) {
      NamedListMergeKeepsDistinctNames(base, patch);
      forall i | 0 <= i < |r.items| ensures Tame(r.items[i]) {
        MergedItemOrigin(base, patch, i);
        if j :| i < |base.items| && 0 <= j < |patch.items| && r.items[i] == MergedInto(base.items[i], patch.items[j]) {
          MergeKeepsTame(base.items[i], patch.items[j]);
        }
      }
    }
  }

  /** Every item of a merged list: a merged pair, an old item, or an item of the patch. */
  lemma MergedItemOrigin(base: Json, patch: Json, i: nat)
    requires IsNamedList(base) && IsNamedList(patch) && Tame(base) && DistinctNames(patch.items)
    requires i < |MergedItems(base, patch, |patch.items|)|
    ensures var x := MergedItems(base, patch, |patch.items|)[i];
            if i < |base.items| then
              || x == base.items[i]
              || exists j | 0 <= j < |patch.items| :: x == MergedInto(base.items[i], patch.items[j])
            else x in patch.items
  {
    NamedListMergeKeepsSiblings(base, patch);
    NewItemsFacts(base.items, patch.items, |patch.items|);
    var r := MergedInto(base, patch);
    hide MergedInto, MergedItems, HasName, NameOf;
    if i >= |base.items| {
      assert r.items[i] == r.items[|base.items|..][i - |base.items|];
      assert r.items[i] in patch.items[..|patch.items|];
    } else {
      assert MergedByName(base.items[i], patch.items, |patch.items|, r.items[i]);
    }
  }

  // ----- Absorption, and exactly when

  /** Reachable named lists have distinct names; keys may carry null. */
  predicate Orderly(j: Json) {
    match j
    case Obj(m) => forall k | k in m :: Orderly(m[k])
    case Arr(items) => IsNamedList(j) ==> DistinctNames(items) && forall i | 0 <= i < |items| :: Orderly(items[i])
    case _ => true
  }

  /** No key that `base` holds is deleted, at any level, items of name-keyed lists included. */
  predicate DeletesNothing(base: Json, patch: Json)
    decreases patch
  {
    if base.Obj? && patch.Obj? then
      forall k | k in patch.fields && k in base.fields ::
        !patch.fields[k].Null? && DeletesNothing(base.fields[k], patch.fields[k])
    else if IsNamedList(base) && IsNamedList(patch) then
      forall j | 0 <= j < |patch.items| ::
        match IndexByName(base.items, NameOf(patch.items[j]))
        case None => true
        case Some(i) => DeletesNothing(base.items[i], patch.items[j])
    else true
  }

  ghost predicate Absorbs(base: Json, patch: Json) {
    MergedInto(base, MergedInto(base, patch)) == MergedInto(base, patch)
  }

  lemma MergedIsNull(base: Json, patch: Json)
    ensures MergedInto(base, patch).Null? <==> patch.Null?
  {
  }

  /** Merging an already merged value into the same base again changes nothing exactly when nothing is deleted. */
  lemma {:induction false} AbsorbsExactly(base: Json, patch: Json)
    requires Tame(base) && Orderly(patch)
    ensures Absorbs(base, patch) <==> DeletesNothing(base, patch)
    decreases patch, 1
  {
    if base.Obj? && patch.Obj? {
      var r := MergedInto(base, patch);
      var rr := MergedInto(base, r);
      forall k | k in patch.fields && k in base.fields && !patch.fields[k].Null?
        ensures k in r.fields && k in rr.fields
        ensures r.fields[k] == rr.fields[k] <==> DeletesNothing(base.fields[k], patch.fields[k])
      {
        MergedIsNull(base.fields[k], patch.fields[k]);
        AbsorbsExactly(base.fields[k], patch.fields[k]);
      }
      ObjectAbsorbs(base, patch);
    } else if IsNamedList(base) && IsNamedList(patch) {
      ListAbsorbsExactly(base, patch);
    }
  }

  lemma MergedMember(base: Json, patch: Json, k: string)
    requires base.Obj? && patch.Obj?
    ensures var r := MergedInto(base, patch);
            && (k in r.fields <==> if k in patch.fields then !patch.fields[k].Null? else k in base.fields)
            && (k in r.fields && k in patch.fields ==> r.fields[k] == MergedInto(Field(base, k), patch.fields[k]))
            && (k in r.fields && k !in patch.fields ==> r.fields[k] == base.fields[k])
  {
  }

  lemma MergedOverNull(patch: Json)
    ensures MergedInto(Null, patch) == patch
  {
  }

  lemma {:induction false} ObjectAbsorbs(base: Json, patch: Json)
    requires base.Obj? && patch.Obj? && Tame(base)
    requires forall k | k in patch.fields && k in base.fields && !patch.fields[k].Null? ::
               Absorbs(base.fields[k], patch.fields[k]) <==> DeletesNothing(base.fields[k], patch.fields[k])
    ensures Absorbs(base, patch) <==> DeletesNothing(base, patch)
  {
    var r := MergedInto(base, patch);
    var rr := MergedInto(base, r);
    forall k | k in r.fields ensures !r.fields[k].Null? {
      if k in patch.fields { MergedIsNull(Field(base, k), patch.fields[k]); }
    }
    forall k | k in base.fields && k !in patch.fields
      ensures MergedInto(base.fields[k], base.fields[k]) == base.fields[k]
    {
      SelfMerge(base.fields[k]);
    }
    assert rr.fields.Keys == base.fields.Keys + r.fields.Keys;
    if DeletesNothing(base, patch) {
      forall k | k in r.fields ensures k in rr.fields && rr.fields[k] == r.fields[k] {
        MergedMember(base, r, k);
        MergedMember(base, patch, k);
        hide MergedInto;
        if k in base.fields && k in patch.fields {
          assert Absorbs(base.fields[k], patch.fields[k]);
        } else if k in patch.fields {
          MergedOverNull(patch.fields[k]);
        }
      }
      assert rr.fields == r.fields;
    } else {
      var k :| k in patch.fields && k in base.fields &&
               (patch.fields[k].Null? || !DeletesNothing(base.fields[k], patch.fields[k]));
      assert k in rr.fields;
      if k in r.fields { assert rr.fields[k] != r.fields[k]; }
    }
  }

  /** Item `i` of a merged list, merged into the old item again. */
  lemma {:induction false} ItemAbsorbsExactly(base: Json, patch: Json, i: nat)
    requires IsNamedList(base) && IsNamedList(patch) && Tame(base) && Orderly(patch) && i < |base.items|
    ensures var x := MergedItems(base, patch, |patch.items|)[i];
            MergedInto(base.items[i], x) == x <==>
            forall j | 0 <= j < |patch.items| && NameIs(patch.items[j], NameOf(base.items[i])) ::
              DeletesNothing(base.items[i], patch.items[j])
    decreases patch, 0, 0
  {
    var a, x := base.items[i], MergedItems(base, patch, |patch.items|)[i];
    assert Tame(a);
    MergedItemsPointwise(base, patch, |patch.items|);
    assert MergedByName(a, patch.items, |patch.items|, x);
    hide MergedItems, IndexByName;
    if j :| 0 <= j < |patch.items| && NameIs(patch.items[j], NameOf(a)) {
      assert Orderly(patch.items[j]);
      AbsorbsExactly(a, patch.items[j]);
      NamesOnce(patch.items, j, NameOf(a));
    } else {
      SelfMerge(a);
    }
  }

  lemma NamesOnce(items: seq<Json>, j: nat, name: Json)
    requires j < |items| && DistinctNames(items) && NameIs(items[j], name)
    ensures forall l | 0 <= l < |items| && NameIs(items[l], name) :: l == j
  {
  }

  lemma {:induction false} ListAbsorbsExactly(base: Json, patch: Json)
    requires IsNamedList(base) && IsNamedList(patch) && Tame(base) && Orderly(patch)
    ensures Absorbs(base, patch) <==> DeletesNothing(base, patch)
    decreases patch, 0, 1
  {
    var r := MergedInto(base, patch);
    var rr := MergedInto(base, r);
    NamedListMergeKeepsSiblings(base, patch);
    NamedListMergeKeepsDistinctNames(base, patch);
    NamedListMergeKeepsSiblings(base, r);
    assert r.items == MergedItems(base, patch, |patch.items|) && rr.items == MergedItems(base, r, |r.items|);
    forall i | 0 <= i < |base.items|
      ensures rr.items[i] == MergedInto(base.items[i], r.items[i])
      ensures rr.items[i] == r.items[i] <==>
              forall j | 0 <= j < |patch.items| && NameIs(patch.items[j], NameOf(base.items[i])) ::
                DeletesNothing(base.items[i], patch.items[j])
    {
      ItemAbsorbsExactly(base, patch, i);
      assert MergedByName(base.items[i], r.items, |r.items|, rr.items[i]);
    }
    ListDeletesNothing(base, patch);
    hide HasName, NameOf, NewItems, MergedByName, IndexByName, MergedInto, MergedItems, Tame, Orderly, DeletesNothing;
    if forall i | 0 <= i < |base.items| :: rr.items[i] == r.items[i] {
      ListAbsorbs(base, r.items, |r.items|);
      assert MergedItems(base, Arr(r.items), |r.items|) == r.items;
    }
  }

  /** Deleting nothing from a list, old item by old item. */
  lemma {:induction false} ListDeletesNothing(base: Json, patch: Json)
    requires IsNamedList(base) && IsNamedList(patch) && DistinctNames(base.items)
    ensures DeletesNothing(base, patch) <==>
            forall i | 0 <= i < |base.items| ::
              forall j | 0 <= j < |patch.items| && NameIs(patch.items[j], NameOf(base.items[i])) ::
                DeletesNothing(base.items[i], patch.items[j])
  {
    forall i, j | 0 <= i < |base.items| && 0 <= j < |patch.items|
      ensures NameIs(patch.items[j], NameOf(base.items[i])) <==>
              IndexByName(base.items, NameOf(patch.items[j])) == Some(i)
    {
      if NameIs(patch.items[j], NameOf(base.items[i])) { IndexOfOwnName(base.items, i); }
    }
  }

  lemma {:induction false} TameDeletesNothing(base: Json, patch: Json)
    requires Tame(patch)
    ensures DeletesNothing(base, patch) && Orderly(patch)
    decreases patch
  {
    if patch.Obj? {
      forall k | k in patch.fields ensures DeletesNothing(Field(base, k), patch.fields[k]) && Orderly(patch.fields[k]) {
        TameDeletesNothing(Field(base, k), patch.fields[k]);
      }
    } else if IsNamedList(patch) {
      forall j | 0 <= j < |patch.items| ensures Orderly(patch.items[j]) {
        TameDeletesNothing(Null, patch.items[j]);
      }
      if IsNamedList(base) {
        forall i, j | 0 <= i < |base.items| && 0 <= j < |patch.items|
          ensures DeletesNothing(base.items[i], patch.items[j])
        {
          TameDeletesNothing(base.items[i], patch.items[j]);
        }
      }
    }
  }

  /** Without nulls, merging an already merged value into the same base again changes nothing, at every level. */
  lemma {:induction false} MergeAbsorbs(base: Json, patch: Json)
    requires Tame(base) && Tame(patch)
    ensures MergedInto(base, MergedInto(base, patch)) == MergedInto(base, patch)
  {
    TameDeletesNothing(base, patch);
    AbsorbsExactly(base, patch);
  }

  /** A patch of one named item rewrites or appends that item. */
  lemma OneItemMerge(base: Json, item: Json)
    requires IsNamedList(base) && HasName(item)
    ensures MergedInto(base, Arr([item])) ==
            match IndexByName(base.items, NameOf(item))
            case None => Arr(base.items + [item])
            case Some(i) => Arr(base.items[i := MergedInto(base.items[i], item)])
  {
    OneItemUnfolds(base, item);
    hide MergedInto, IndexByName;
    assert MergedItems(base, Arr([item]), 0) == base.items;
  }

  lemma OneItemUnfolds(base: Json, item: Json)
    requires IsNamedList(base) && HasName(item)
    ensures IsNamedList(Arr([item])) && MergedInto(base, Arr([item])) == Arr(MergedItems(base, Arr([item]), 1))
  {
  }
}
