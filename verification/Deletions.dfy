/** Two edits of one name-keyed list: which deletions of the first come back, and exactly when. */
module Deletions {
  import opened JsonValues
  import opened PatchAlgebra
  import opened PatchBody

  // ----- When two edits settle

  /** What `working` holds at a list that `first` has edited: the merged list, merged into the old one again. */
  function Remerged(base: Json, first: Json): Json {
    MergedInto(base, MergedInto(base, first))
  }

  /**
   * `second` covers all that re-merging `first` brings back: each key of the base that `first` deletes is deleted
   * again or overwritten so that nothing of the old value shows.
   */
  predicate Settled(base: Json, first: Json, second: Json)
    decreases first
  {
    if base.Obj? && first.Obj? then
      second.Obj? ==>
        forall k | k in first.fields && k in base.fields ::
          if k in second.fields then
            || second.fields[k].Null?
            || (if first.fields[k].Null? then MergedInto(base.fields[k], second.fields[k]) == second.fields[k]
                else Settled(base.fields[k], first.fields[k], second.fields[k]))
          else !first.fields[k].Null? && DeletesNothing(base.fields[k], first.fields[k])
    else if IsNamedList(base) && IsNamedList(first) && IsNamedList(second) then
      forall j | 0 <= j < |first.items| ::
        match IndexByName(base.items, NameOf(first.items[j]))
        case None => true
        case Some(i) =>
          match IndexByName(second.items, NameOf(first.items[j]))
          case None => DeletesNothing(base.items[i], first.items[j])
          case Some(l) => Settled(base.items[i], first.items[j], second.items[l])
    else true
  }

  ghost predicate Agree(base: Json, first: Json, second: Json) {
    MergedInto(Remerged(base, first), second) == MergedInto(MergedInto(base, first), second)
  }

  lemma {:induction false} ObjectSettles(base: Json, first: Json, second: Json)
    requires base.Obj? && first.Obj? && second.Obj? && Tame(base) && Orderly(first)
    requires forall k | k in first.fields && k in base.fields && k in second.fields && !first.fields[k].Null? ::
               Agree(base.fields[k], first.fields[k], second.fields[k]) <==>
               Settled(base.fields[k], first.fields[k], second.fields[k])
    ensures Agree(base, first, second) <==> Settled(base, first, second)
  {
    var m, w := MergedInto(base, first), Remerged(base, first);
    var lhs, rhs := MergedInto(w, second), MergedInto(m, second);
    forall k ensures SameMember(lhs, rhs, k) <==> MemberSettles(base, first, second, k) {
      MemberSettlesExactly(base, first, second, k);
    }
    hide MergedInto, Tame, Orderly, Settled, DeletesNothing;
    if forall k :: SameMember(lhs, rhs, k) {
      assert lhs.fields.Keys == rhs.fields.Keys by {
        forall k ensures k in lhs.fields <==> k in rhs.fields { assert SameMember(lhs, rhs, k); }
      }
      forall k | k in lhs.fields ensures lhs.fields[k] == rhs.fields[k] { assert SameMember(lhs, rhs, k); }
      assert lhs.fields == rhs.fields;
    }
    SettledMembers(base, first, second);
  }

  predicate SameMember(a: Json, b: Json, k: string)
    requires a.Obj? && b.Obj?
  {
    (k in a.fields <==> k in b.fields) && (k in a.fields && k in b.fields ==> a.fields[k] == b.fields[k])
  }

  predicate MemberSettles(base: Json, first: Json, second: Json, k: string)
    requires base.Obj? && first.Obj? && second.Obj?
  {
    k in first.fields && k in base.fields ==>
      if k in second.fields then
        || second.fields[k].Null?
        || (if first.fields[k].Null? then MergedInto(base.fields[k], second.fields[k]) == second.fields[k]
            else Settled(base.fields[k], first.fields[k], second.fields[k]))
      else !first.fields[k].Null? && DeletesNothing(base.fields[k], first.fields[k])
  }

  lemma {:induction false} SettledMembers(base: Json, first: Json, second: Json)
    requires base.Obj? && first.Obj? && second.Obj?
    ensures Settled(base, first, second) <==> forall k :: MemberSettles(base, first, second, k)
  {
    hide MergedInto, DeletesNothing;
    if Settled(base, first, second) {
    } else {
      var k :| k in first.fields && k in base.fields && !MemberSettles(base, first, second, k);
    }
  }

  lemma {:induction false} MemberSettlesExactly(base: Json, first: Json, second: Json, k: string)
    requires base.Obj? && first.Obj? && second.Obj? && Tame(base) && Orderly(first)
    requires k in first.fields && k in base.fields && k in second.fields && !first.fields[k].Null? ==>
               (Agree(base.fields[k], first.fields[k], second.fields[k]) <==>
                Settled(base.fields[k], first.fields[k], second.fields[k]))
    ensures SameMember(MergedInto(Remerged(base, first), second), MergedInto(MergedInto(base, first), second), k) <==>
            MemberSettles(base, first, second, k)
  {
    var m := MergedInto(base, first);
    var w := MergedInto(base, m);
    MergedMember(base, first, k);
    MergedMember(base, m, k);
    MergedMember(w, second, k);
    MergedMember(m, second, k);
    if k in first.fields { MergedIsNull(Field(base, k), first.fields[k]); }
    if k in base.fields {
      if k in first.fields {
        if !first.fields[k].Null? { AbsorbsExactly(base.fields[k], first.fields[k]); }
      } else {
        SelfMerge(base.fields[k]);
      }
    } else if k in first.fields {
      MergedOverNull(first.fields[k]);
    }
    if k in second.fields { MergedOverNull(second.fields[k]); }
    hide MergedInto, Tame, Orderly, Settled, DeletesNothing;
  }

  // ----- Lists

  /** Two lists that name the same items in the same order. */
  predicate SameNames(a: seq<Json>, b: seq<Json>) {
    |a| == |b| && forall i | 0 <= i < |a| :: HasName(a[i]) && NameIs(b[i], NameOf(a[i]))
  }

  lemma {:induction false} SameIndex(a: seq<Json>, b: seq<Json>, name: Json)
    requires SameNames(a, b)
    ensures IndexByName(a, name) == IndexByName(b, name)
    decreases |a|
  {
    if a != [] {
      var n := |a| - 1;
      assert SameNames(a[..n], b[..n]);
      assert NameIs(a[n], name) <==> NameIs(b[n], name);
      SameIndex(a[..n], b[..n], name);
    }
  }

  /** Merging one list into two of the same names gives equal results exactly if it does so item by item. */
  lemma {:induction false} SameNamesMerge(a: Json, b: Json, p: Json, n: nat)
    requires IsNamedList(a) && IsNamedList(b) && IsNamedList(p) && SameNames(a.items, b.items) && n <= |p.items|
    ensures |MergedItems(a, p, n)| == |MergedItems(b, p, n)|
    ensures forall i | |a.items| <= i < |MergedItems(a, p, n)| :: MergedItems(a, p, n)[i] == MergedItems(b, p, n)[i]
    decreases n
  {
    hide MergedInto, HasName, NameOf;
    if n > 0 {
      SameNamesMerge(a, b, p, n - 1);
      SameIndex(a.items, b.items, NameOf(p.items[n - 1]));
    }
  }

  /** The items that `first` and `second` have of the name of `a` settle it. */
  predicate ItemSettled(a: Json, first: seq<Json>, second: seq<Json>)
    requires HasName(a)
  {
    forall j | 0 <= j < |first| && NameIs(first[j], NameOf(a)) ::
      match IndexByName(second, NameOf(a))
      case None => DeletesNothing(a, first[j])
      case Some(l) => Settled(a, first[j], second[l])
  }

  /** Item `a` of the base under both lists: merged to `m` and re-merged to `w`, and then to `x` and `y`. */
  lemma {:induction false} ItemSettles(
    a: Json, first: seq<Json>, second: seq<Json>, m: Json, w: Json, x: Json, y: Json)
    requires HasName(a) && Tame(a) && DistinctNames(first) && DistinctNames(second)
    requires forall j | 0 <= j < |first| :: Orderly(first[j])
    requires MergedByName(a, first, |first|, m) && w == MergedInto(a, m)
    requires NameIs(m, NameOf(a)) && NameIs(w, NameOf(a))
    requires MergedByName(m, second, |second|, x) && MergedByName(w, second, |second|, y)
    requires forall j, l | 0 <= j < |first| && 0 <= l < |second| ::
               Agree(a, first[j], second[l]) <==> Settled(a, first[j], second[l])
    ensures x == y <==> ItemSettled(a, first, second)
  {
    hide MergedInto, Tame, Orderly, Settled, DeletesNothing;
    if j :| 0 <= j < |first| && NameIs(first[j], NameOf(a)) {
      NamesOnce(first, j, NameOf(a));
      assert m == MergedInto(a, first[j]);
      AbsorbsExactly(a, first[j]);
      match IndexByName(second, NameOf(a)) {
        case None =>
          assert x == m && y == w;
        case Some(l) =>
          assert x == MergedInto(m, second[l]) && y == MergedInto(w, second[l]);
          assert Agree(a, first[j], second[l]) <==> Settled(a, first[j], second[l]);
      }
    } else {
      assert m == a;
      SelfMerge(a);
    }
  }

  /** The list condition, old item by old item. */
  lemma {:induction false} ListSettled(base: Json, first: Json, second: Json)
    requires IsNamedList(base) && IsNamedList(first) && IsNamedList(second) && DistinctNames(base.items)
    ensures Settled(base, first, second) <==>
            forall i | 0 <= i < |base.items| :: ItemSettled(base.items[i], first.items, second.items)
  {
    forall i, j | 0 <= i < |base.items| && 0 <= j < |first.items|
      ensures NameIs(first.items[j], NameOf(base.items[i])) <==>
              IndexByName(base.items, NameOf(first.items[j])) == Some(i)
    {
      if NameIs(first.items[j], NameOf(base.items[i])) { IndexOfOwnName(base.items, i); }
    }
    hide MergedInto, DeletesNothing, IndexByName;
  }

  /** The items of new names are those after the old ones. */
  lemma {:induction false} TailIsNew(base: seq<Json>, r: seq<Json>, n: nat)
    requires |base| <= |r| && n <= |r| && (forall i | 0 <= i < |r| :: HasName(r[i]))
    requires forall i | 0 <= i < |base| :: HasName(base[i]) && NameIs(r[i], NameOf(base[i]))
    requires forall i | |base| <= i < |r| :: IndexByName(base, NameOf(r[i])).None?
    ensures NewItems(base, r, n) == if n <= |base| then [] else r[|base|..n]
    decreases n
  {
    hide HasName, NameOf, IndexByName;
    if n > 0 {
      TailIsNew(base, r, n - 1);
      assert NewItems(base, r, n) ==
             NewItems(base, r, n - 1) + if IndexByName(base, NameOf(r[n - 1])).None? then [r[n - 1]] else [];
      hide NewItems;
      if n <= |base| {
        assert NameIs(base[n - 1], NameOf(r[n - 1])) by { NamesMatch(base[n - 1], r[n - 1]); }
      } else {
        assert r[|base|..n] == r[|base|..n - 1] + [r[n - 1]];
      }
    }
  }

  lemma NamesMatch(a: Json, b: Json)
    requires HasName(a) && NameIs(b, NameOf(a))
    ensures HasName(b) && NameIs(a, NameOf(b)) && NameOf(a) == NameOf(b)
  {
  }

  /** The merged list and the re-merged one: same names, same new items, old items merged once and once more. */
  lemma {:induction false} RemergedList(base: Json, first: Json)
    requires IsNamedList(base) && IsNamedList(first) && Tame(base) && Orderly(first)
    ensures var (m, w) := (MergedInto(base, first), Remerged(base, first));
            && IsNamedList(m) && IsNamedList(w) && SameNames(m.items, w.items)
            && |base.items| <= |m.items| == |w.items|
            && DistinctNames(m.items) && DistinctNames(w.items)
            && (forall i | 0 <= i < |base.items| ::
                  && MergedByName(base.items[i], first.items, |first.items|, m.items[i])
                  && w.items[i] == MergedInto(base.items[i], m.items[i])
                  && NameIs(m.items[i], NameOf(base.items[i])) && NameIs(w.items[i], NameOf(base.items[i])))
            && (forall i | |base.items| <= i < |m.items| :: w.items[i] == m.items[i])
  {
    hide MergedItems, HasName, NameOf, MergedByName, NewItems, IndexByName;
    var m, w, n := MergedInto(base, first), Remerged(base, first), |base.items|;
    NamedListMergeKeepsSiblings(base, first);
    NamedListMergeKeepsDistinctNames(base, first);
    NamedListMergeKeepsSiblings(base, m);
    NamedListMergeKeepsDistinctNames(base, m);
    hide MergedInto, Tame, Orderly, DistinctNames;
    TailIsNew(base.items, m.items, |m.items|);
    assert w.items[n..] == m.items[n..];
    forall i | 0 <= i < |base.items|
      ensures w.items[i] == MergedInto(base.items[i], m.items[i])
    {
      MergedWithItsOwn(base.items[i], m.items, i, w.items[i]);
    }
    NamesFollow(base.items, m.items, w.items);
  }

  lemma NamesFollow(base: seq<Json>, m: seq<Json>, w: seq<Json>)
    requires |base| <= |m| == |w| && w[|base|..] == m[|base|..]
    requires (forall i | 0 <= i < |m| :: HasName(m[i])) && forall i | 0 <= i < |base| :: HasName(base[i])
    requires forall i | 0 <= i < |base| :: NameIs(m[i], NameOf(base[i])) && NameIs(w[i], NameOf(base[i]))
    ensures SameNames(m, w) && forall i | |base| <= i < |m| :: w[i] == m[i]
  {
    forall i | 0 <= i < |m| ensures NameIs(w[i], NameOf(m[i])) && (i >= |base| ==> w[i] == m[i]) {
      if i < |base| {
        NamesMatch(base[i], m[i]);
      } else {
        assert w[|base|..][i - |base|] == m[|base|..][i - |base|];
        OwnName(m[i]);
      }
    }
  }

  lemma OwnName(a: Json)
    requires HasName(a)
    ensures NameIs(a, NameOf(a))
  {
  }

  lemma MergedWithItsOwn(a: Json, patch: seq<Json>, i: nat, r: Json)
    requires HasName(a) && i < |patch| && NameIs(patch[i], NameOf(a)) && MergedByName(a, patch, |patch|, r)
    ensures r == MergedInto(a, patch[i])
  {
  }

  lemma MergedByNameOnce(a: Json, patch: seq<Json>, x: Json, y: Json)
    requires HasName(a) && MergedByName(a, patch, |patch|, x) && MergedByName(a, patch, |patch|, y)
    ensures x == y
  {
    hide MergedInto;
    if j :| 0 <= j < |patch| && NameIs(patch[j], NameOf(a)) {
    }
  }

  lemma {:induction false} ListSettles(base: Json, first: Json, second: Json)
    requires IsNamedList(base) && IsNamedList(first) && IsNamedList(second)
    requires Tame(base) && Orderly(first) && Orderly(second)
    requires forall i, j, l | 0 <= i < |base.items| && 0 <= j < |first.items| && 0 <= l < |second.items| ::
               Agree(base.items[i], first.items[j], second.items[l]) <==>
               Settled(base.items[i], first.items[j], second.items[l])
    ensures Agree(base, first, second) <==> Settled(base, first, second)
  {
    hide HasName, NameOf, Settled, MergedByName, SameNames, IndexByName, ItemSettled, DeletesNothing;
    var m, w := MergedInto(base, first), Remerged(base, first);
    var n := |second.items|;
    RemergedList(base, first);
    ListSettled(base, first, second);
    MergedItemsPointwise(m, second, n);
    MergedItemsPointwise(w, second, n);
    SameNamesMerge(m, w, second, n);
    var x, y := MergedItems(m, second, n), MergedItems(w, second, n);
    assert MergedInto(m, second) == Arr(x) && MergedInto(w, second) == Arr(y);
    assert forall i | 0 <= i < |base.items| :: Tame(base.items[i]);
    assert forall j | 0 <= j < |first.items| :: Orderly(first.items[j]);
    hide MergedInto, MergedItems, Tame, Orderly;
    ItemsSettle(base.items, first.items, second.items, m.items, w.items, x, y);
  }

  lemma {:induction false} ItemsSettle(
    base: seq<Json>, first: seq<Json>, second: seq<Json>, m: seq<Json>, w: seq<Json>, x: seq<Json>, y: seq<Json>)
    requires |base| <= |m| == |w| <= |x| == |y| && DistinctNames(first) && DistinctNames(second)
    requires forall i | 0 <= i < |base| :: HasName(base[i]) && Tame(base[i])
    requires forall i | 0 <= i < |m| :: HasName(m[i]) && HasName(w[i])
    requires forall j | 0 <= j < |first| :: Orderly(first[j])
    requires forall i | 0 <= i < |base| ::
               && MergedByName(base[i], first, |first|, m[i]) && w[i] == MergedInto(base[i], m[i])
               && NameIs(m[i], NameOf(base[i])) && NameIs(w[i], NameOf(base[i]))
    requires forall i | 0 <= i < |m| :: MergedByName(m[i], second, |second|, x[i])
    requires forall i | 0 <= i < |m| :: MergedByName(w[i], second, |second|, y[i])
    requires (forall i | |base| <= i < |m| :: w[i] == m[i]) && forall i | |m| <= i < |x| :: x[i] == y[i]
    requires forall i, j, l | 0 <= i < |base| && 0 <= j < |first| && 0 <= l < |second| ::
               Agree(base[i], first[j], second[l]) <==> Settled(base[i], first[j], second[l])
    ensures x == y <==> forall i | 0 <= i < |base| :: ItemSettled(base[i], first, second)
  {
    hide MergedInto, Tame, Orderly, HasName, NameOf, Settled, MergedByName, Agree, ItemSettled, DistinctNames;
    forall i | 0 <= i < |base| ensures x[i] == y[i] <==> ItemSettled(base[i], first, second) {
      ItemSettles(base[i], first, second, m[i], w[i], x[i], y[i]);
    }
    forall i | |base| <= i < |m| ensures x[i] == y[i] {
      MergedByNameOnce(m[i], second, x[i], y[i]);
    }
    if forall i | 0 <= i < |base| :: x[i] == y[i] {
      assert x == y;
    }
  }

  /**
   * Re-merging the first of two edits shows in the second exactly when they are not settled: for each key of an old
   * item that the first edit deletes, the second must delete it again or cover the old value.
   */
  lemma {:induction false} SettledExactly(base: Json, first: Json, second: Json)
    requires Tame(base) && Orderly(first) && Orderly(second)
    ensures Agree(base, first, second) <==> Settled(base, first, second)
    decreases first
  {
    if base.Obj? && first.Obj? {
      if second.Obj? {
        forall k | k in first.fields && k in base.fields && k in second.fields && !first.fields[k].Null?
          ensures Agree(base.fields[k], first.fields[k], second.fields[k]) <==>
                  Settled(base.fields[k], first.fields[k], second.fields[k])
        {
          SettledExactly(base.fields[k], first.fields[k], second.fields[k]);
        }
        ObjectSettles(base, first, second);
      }
    } else if IsNamedList(base) && IsNamedList(first) {
      if IsNamedList(second) {
        forall i, j, l | 0 <= i < |base.items| && 0 <= j < |first.items| && 0 <= l < |second.items|
          ensures Agree(base.items[i], first.items[j], second.items[l]) <==>
                  Settled(base.items[i], first.items[j], second.items[l])
        {
          SettledExactly(base.items[i], first.items[j], second.items[l]);
        }
        ListSettles(base, first, second);
      } else {
        RemergedList(base, first);
      }
    }
  }

  // ----- The two edits in one body

  /** The same, reached through objects: only name-keyed lists that all three share matter. */
  predicate SettledAlong(base: Json, first: Json, second: Json)
    decreases second
  {
    if second.Obj? then
      first.Obj? ==>
        forall k | k in first.fields && k in second.fields ::
          SettledAlong(Field(base, k), first.fields[k], second.fields[k])
    else IsNamedList(base) && IsNamedList(first) && IsNamedList(second) ==> Settled(base, first, second)
  }

  /** What the server makes of the second edit, expanded against `working` and against the object itself. */
  lemma {:induction false} ServedExactly(target: Json, base: Json, first: Json, second: Json)
    requires Tame(base) && Orderly(first) && Orderly(second)
    requires Compatible(first, second) && (second.Obj? ==> first.Obj?)
    ensures var (w, e) := (MergedInto(base, ExpandNamedLists(first, base)), MergedInto(base, first));
            MergePatch(target, ExpandNamedLists(second, w)) == MergePatch(target, ExpandNamedLists(second, e)) <==>
            SettledAlong(base, first, second)
    decreases second
  {
    var w, e := MergedInto(base, ExpandNamedLists(first, base)), MergedInto(base, first);
    if second.Obj? {
      forall k | k in second.fields
        ensures ServedAlike(Field(target, k), second.fields[k], Field(w, k), Field(e, k)) <==>
                (k in first.fields ==> SettledAlong(Field(base, k), first.fields[k], second.fields[k]))
      {
        MemberServed(base, first, k);
        if k in first.fields && !first.fields[k].Null? {
          ServedExactly(Field(target, k), Field(base, k), first.fields[k], second.fields[k]);
        }
      }
      hide MergedInto, Tame, Orderly, Settled;
      ObjectServed(target, second, w, e);
    } else {
      LeafServed(target, base, first, second);
    }
  }

  ghost predicate ServedAlike(target: Json, patch: Json, a: Json, b: Json) {
    MergePatch(target, ExpandNamedLists(patch, a)) == MergePatch(target, ExpandNamedLists(patch, b))
  }

  /** A member of the two merged objects is the merge of the member, or the same on both sides. */
  lemma {:induction false} MemberServed(base: Json, first: Json, k: string)
    requires first.Obj?
    ensures var (w, e) := (MergedInto(base, ExpandNamedLists(first, base)), MergedInto(base, first));
            if k in first.fields && !first.fields[k].Null? then
              && Field(w, k) == MergedInto(Field(base, k), ExpandNamedLists(first.fields[k], Field(base, k)))
              && Field(e, k) == MergedInto(Field(base, k), first.fields[k])
            else Field(w, k) == Field(e, k)
  {
  }

  lemma {:induction false} PatchedMember(target: Json, patch: Json, k: string)
    requires patch.Obj?
    ensures var r := MergePatch(target, patch);
            && r.Obj?
            && (k in r.fields <==>
                  if k in patch.fields then !patch.fields[k].Null? else target.Obj? && k in target.fields)
            && (k in r.fields && k in patch.fields ==> r.fields[k] == MergePatch(Field(target, k), patch.fields[k]))
            && (k in r.fields && k !in patch.fields ==> r.fields[k] == Field(target, k))
  {
  }

  lemma {:induction false} ObjectServed(target: Json, patch: Json, a: Json, b: Json)
    requires patch.Obj?
    ensures ServedAlike(target, patch, a, b) <==>
            forall k | k in patch.fields :: ServedAlike(Field(target, k), patch.fields[k], Field(a, k), Field(b, k))
  {
    var x, y := ExpandNamedLists(patch, a), ExpandNamedLists(patch, b);
    var lhs, rhs := MergePatch(target, x), MergePatch(target, y);
    PatchedMember(target, x, "");
    PatchedMember(target, y, "");
    forall k
      ensures SameMember(lhs, rhs, k) <==>
              (k in patch.fields ==> ServedAlike(Field(target, k), patch.fields[k], Field(a, k), Field(b, k)))
    {
      PatchedMember(target, x, k);
      PatchedMember(target, y, k);
      if k in patch.fields {
        ExpandKeepsShape(patch.fields[k], Field(a, k));
        ExpandKeepsShape(patch.fields[k], Field(b, k));
      }
      hide MergePatch;
    }
    hide MergePatch, ExpandNamedLists, ServedAlike;
    SameMembers(lhs, rhs);
    assert ServedAlike(target, patch, a, b) <==> lhs == rhs by { Served(target, patch, a, b); }
  }

  lemma Served(target: Json, patch: Json, a: Json, b: Json)
    ensures ServedAlike(target, patch, a, b) <==>
            MergePatch(target, ExpandNamedLists(patch, a)) == MergePatch(target, ExpandNamedLists(patch, b))
  {
    hide MergePatch, ExpandNamedLists;
  }

  lemma SameMembers(a: Json, b: Json)
    requires a.Obj? && b.Obj?
    ensures a == b <==> forall k :: SameMember(a, b, k)
  {
    if forall k :: SameMember(a, b, k) {
      forall k ensures k in a.fields <==> k in b.fields { assert SameMember(a, b, k); }
      assert a.fields.Keys == b.fields.Keys;
      forall k | k in a.fields ensures a.fields[k] == b.fields[k] { assert SameMember(a, b, k); }
      assert a.fields == b.fields;
    }
  }

  lemma {:induction false} LeafServed(target: Json, base: Json, first: Json, second: Json)
    requires Tame(base) && Orderly(first) && Orderly(second) && !second.Obj?
    ensures ServedAlike(target, second, MergedInto(base, ExpandNamedLists(first, base)), MergedInto(base, first)) <==>
            SettledAlong(base, first, second)
  {
    hide MergedItems, Tame, Orderly, Settled;
    if IsNamedList(second) {
      if IsNamedList(first) && IsNamedList(base) {
        RemergedList(base, first);
        SettledExactly(base, first, second);
      } else if first.Obj? {
        ExpandKeepsShape(first, base);
      }
    }
  }

  /**
   * Two edits compiled into one body mean what they mean one after the other exactly when they are settled along
   * the objects: with no null below a shared name-keyed list, or with every deletion there covered by the second.
   */
  lemma {:induction false} TwoEditsExactly(start: Json, first: Json, second: Json)
    requires start.Obj? && first.Obj? && second.Obj? && Tame(start) && Orderly(first) && Orderly(second)
    requires Compatible(first, second) && Grounded(start, first) && Grounded(MergedInto(start, first), second)
    ensures MeansEdits(start, [first, second]) <==> SettledAlong(start, first, second)
  {
    var subs, e := [first, second], MergedInto(start, first);
    var x := ExpandNamedLists(first, start);
    var w := MergedInto(start, x);
    ExpandKeepsShape(first, start);
    ExpandKeepsShape(second, w);
    TwoEditsUnfold(start, first, second);
    hide MergedInto, MergePatch, ExpandNamedLists, DeepMerged, Compatible, Grounded, Tame, Orderly, Settled,
         SettledAlong;
    ServedExactly(e, start, first, second);
    ExpandedPatchIsMergeExactly(start, first);
    ExpandedPatchIsMergeExactly(e, second);
    CompatibleExpansions(first, start, second, w);
    CompatiblePatchesCompose(start, x, ExpandNamedLists(second, w));
  }

  lemma {:induction false} TwoEditsUnfold(start: Json, first: Json, second: Json)
    requires first.Obj? && second.Obj?
    ensures var x := ExpandNamedLists(first, start);
            var y := ExpandNamedLists(second, MergedInto(start, x));
            && x.Obj? && y.Obj? && Body(start, [first, second], 2) == DeepMerged(x, y)
            && Edited(start, [first, second], 2) == MergedInto(MergedInto(start, first), second)
  {
    var subs, x := [first, second], ExpandNamedLists(first, start);
    ExpandKeepsShape(first, start);
    assert subs[..1] == [first];
    var w := MergedInto(start, x);
    ExpandKeepsShape(second, w);
    assert Body(start, subs, 1) == x by {
      assert Body(start, subs, 0) == EMPTY_OBJ && Working(start, subs, 0) == start;
      assert DeepMerged(EMPTY_OBJ, x).fields == x.fields;
    }
    hide MergedInto, DeepMerged, ExpandNamedLists;
    assert Working(start, subs, 1) == w;
    assert Edited(start, subs, 1) == MergedInto(start, first);
  }

  /** A second edit without name-keyed lists leaves every deletion of the first in force. */
  lemma {:induction false} EditElsewhereSettles(base: Json, first: Json, second: Json)
    requires !HasNamedList(second)
    ensures SettledAlong(base, first, second)
    decreases second
  {
    if first.Obj? && second.Obj? {
      forall k | k in first.fields && k in second.fields
        ensures SettledAlong(Field(base, k), first.fields[k], second.fields[k])
      {
        EditElsewhereSettles(Field(base, k), first.fields[k], second.fields[k]);
      }
    }
  }

  // ----- An instance

  function InList(item: Json): Json {
    Obj(map["containers" := Arr([item])])
  }

  lemma InListMerge(a: Json, b: Json)
    requires HasName(a) && HasName(b) && NameOf(a) == NameOf(b)
    ensures MergedInto(InList(a), InList(b)) == InList(MergedInto(a, b))
    ensures ExpandNamedLists(InList(b), InList(a)) == InList(MergedInto(a, b))
    ensures HasName(MergedInto(a, b)) || NameOf(b).Null?
  {
    OneItemMerge(Arr([a]), b);
    assert IndexByName([a], NameOf(b)) == Some(0) && [a][0 := MergedInto(a, b)] == [MergedInto(a, b)];
    assert MergedInto(InList(a), InList(b)).fields == InList(MergedInto(a, b)).fields;
    assert ExpandNamedLists(InList(b), InList(a)).fields == InList(MergedInto(a, b)).fields;
  }

  const MAIN: Json := Obj(map["name" := Str("main")])
  const MAIN_WITH_CPU: Json := Obj(map["name" := Str("main"), "cpu" := Num(1.0)])
  const MAIN_WITHOUT_CPU: Json := Obj(map["name" := Str("main"), "cpu" := Null])

  /**
   * Deleting a key of a list item and then editing that item: alone, the first edit reaches the server as meant,
   * but `working` has the key back, and so has the body of the two edits together.
   */
  lemma DeletedKeyReturns()
    ensures var (start, subs) := (InList(MAIN_WITH_CPU), [InList(MAIN_WITHOUT_CPU), InList(MAIN)]);
            && MergePatch(start, Body(start, subs, 1)) == Edited(start, subs, 1)
            && MergePatch(start, Body(start, subs, 2)) == start
            && Edited(start, subs, 2) == InList(MAIN)
  {
    var start, subs := InList(MAIN_WITH_CPU), [InList(MAIN_WITHOUT_CPU), InList(MAIN)];
    MergesOfMain();
    InListMerge(MAIN_WITH_CPU, MAIN_WITHOUT_CPU);
    InListMerge(MAIN_WITH_CPU, MAIN);
    InListMerge(MAIN, MAIN);
    assert Working(start, subs, 1) == start;
    assert Edited(start, subs, 1) == InList(MAIN);
    ListPatchReplaces(start, InList(MAIN), start);
  }

  lemma {:induction false} MergesOfMain()
    ensures MergedInto(MAIN_WITH_CPU, MAIN_WITHOUT_CPU) == MAIN
    ensures MergedInto(MAIN_WITH_CPU, MAIN) == MAIN_WITH_CPU
    ensures MergedInto(MAIN, MAIN) == MAIN
  {
    assert MergedInto(MAIN_WITH_CPU, MAIN_WITHOUT_CPU).fields == MAIN.fields;
    assert MergedInto(MAIN_WITH_CPU, MAIN).fields == MAIN_WITH_CPU.fields;
    assert MergedInto(MAIN, MAIN).fields == MAIN.fields;
  }

  /** Merge patches on one list member: the last list wins. */
  lemma {:induction false} ListPatchReplaces(target: Json, first: Json, second: Json)
    requires exists a, b, c :: target == InList(a) && first == InList(b) && second == InList(c)
    ensures DeepMerged(EMPTY_OBJ, first) == first && DeepMerged(first, second) == second
    ensures MergePatch(target, first) == first && MergePatch(target, second) == second
  {
    assert DeepMerged(EMPTY_OBJ, first).fields == first.fields;
    assert DeepMerged(first, second).fields == second.fields;
    assert MergePatch(target, first).fields == first.fields;
    assert MergePatch(target, second).fields == second.fields;
  }
}
