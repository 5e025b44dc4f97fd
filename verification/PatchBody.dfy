/** Several edits compiled into one merge patch: `_build_patch_body` and what its result means. */
module PatchBody {
  import opened JsonValues
  import opened PatchAlgebra

  // ----- The runs of the compiler and of the edits it stands for

  /** `working` after the first `n` sub-patches. */
  function Working(start: Json, subs: seq<Json>, n: nat): Json
    requires n <= |subs|
  {
    if n == 0 then start
    else
      var w := Working(start, subs, n - 1);
      MergedInto(w, ExpandNamedLists(subs[n - 1], w))
  }

  /** `patch_body` after the first `n` sub-patches. */
  function Body(start: Json, subs: seq<Json>, n: nat): (r: Json)
    requires n <= |subs| && forall p | p in subs :: p.Obj?
    ensures r.Obj?
  {
    if n == 0 then EMPTY_OBJ
    else DeepMerged(Body(start, subs, n - 1), ExpandNamedLists(subs[n - 1], Working(start, subs, n - 1)))
  }

  /** The edits themselves, applied one after another. */
  function Edited(start: Json, subs: seq<Json>, n: nat): Json
    requires n <= |subs|
  {
    if n == 0 then start else MergedInto(Edited(start, subs, n - 1), subs[n - 1])
  }

  /** The body without any look at the current object. */
  function PlainBody(subs: seq<Json>, n: nat): (r: Json)
    requires n <= |subs| && forall p | p in subs :: p.Obj?
    ensures r.Obj?
  {
    if n == 0 then EMPTY_OBJ else DeepMerged(PlainBody(subs, n - 1), subs[n - 1])
  }

  // ----- One step of `working`

  /** As far as expanding `patch` can tell, the two objects are the same. */
  predicate SameFor(patch: Json, a: Json, b: Json)
    decreases patch
  {
    if patch.Obj? then
      (a.Obj? <==> b.Obj?) && forall k | k in patch.fields :: SameFor(patch.fields[k], Field(a, k), Field(b, k))
    else IsNamedList(patch) ==> a == b || (!IsNamedList(a) && !IsNamedList(b))
  }

  lemma {:induction false} SameIsSame(patch: Json, a: Json)
    ensures SameFor(patch, a, a)
    decreases patch
  {
    if patch.Obj? {
      forall k | k in patch.fields ensures SameFor(patch.fields[k], Field(a, k), Field(a, k)) {
        SameIsSame(patch.fields[k], Field(a, k));
      }
    }
  }

  lemma {:induction false} SameExpansion(patch: Json, a: Json, b: Json)
    requires SameFor(patch, a, b)
    ensures ExpandNamedLists(patch, a) == ExpandNamedLists(patch, b)
    decreases patch
  {
    if patch.Obj? {
      forall k | k in patch.fields
        ensures ExpandNamedLists(patch.fields[k], Field(a, k)) == ExpandNamedLists(patch.fields[k], Field(b, k))
      {
        SameExpansion(patch.fields[k], Field(a, k), Field(b, k));
      }
      assert ExpandNamedLists(patch, a).fields == ExpandNamedLists(patch, b).fields;
    }
  }

  /** Wherever `edit` and `later` share a named list, merging `edit` into it twice is merging it once. */
  ghost predicate AbsorbedBefore(later: Json, base: Json, edit: Json)
    decreases later
  {
    if later.Obj? && edit.Obj? then
      forall k | k in later.fields && k in edit.fields ::
        AbsorbedBefore(later.fields[k], Field(base, k), edit.fields[k])
    else IsNamedList(later) && IsNamedList(edit) && IsNamedList(base) ==> Absorbs(base, edit)
  }

  /** `working` merges the expanded edit, the object itself the edit; `later` cannot tell the results apart. */
  lemma {:induction false} StepKeepsSame(later: Json, edit: Json, working: Json, edited: Json)
    requires SameFor(edit, working, edited) && SameFor(later, working, edited)
    requires Compatible(edit, later) && (later.Obj? ==> edit.Obj?) && AbsorbedBefore(later, edited, edit)
    ensures SameFor(later, MergedInto(working, ExpandNamedLists(edit, working)), MergedInto(edited, edit))
    decreases later
  {
    hide MergedItems;
    var e := ExpandNamedLists(edit, working);
    ExpandKeepsShape(edit, working);
    if later.Obj? {
      if working.Obj? {
        var w, o := MergedInto(working, e), MergedInto(edited, edit);
        forall k | k in later.fields ensures SameFor(later.fields[k], Field(w, k), Field(o, k)) {
          MergedMember(working, e, k);
          MergedMember(edited, edit, k);
          if k in edit.fields {
            ExpandKeepsShape(edit.fields[k], Field(working, k));
            if edit.fields[k].Null? {
              SameIsSame(later.fields[k], Null);
            } else {
              StepKeepsSame(later.fields[k], edit.fields[k], Field(working, k), Field(edited, k));
            }
          }
        }
      } else {
        ExpandOverNothing(edit, working);
        SameIsSame(later, edit);
      }
    }
  }

  lemma {:induction false} CompatibleExpansions(p1: Json, base1: Json, p2: Json, base2: Json)
    requires Compatible(p1, p2)
    ensures Compatible(ExpandNamedLists(p1, base1), ExpandNamedLists(p2, base2))
    decreases p2
  {
    hide MergedInto;
    if p1.Obj? && p2.Obj? {
      forall k | k in p1.fields && k in p2.fields
        ensures var (e1, e2) := (ExpandNamedLists(p1.fields[k], Field(base1, k)),
                ExpandNamedLists(p2.fields[k], Field(base2, k)));
                e2.Obj? ==> e1.Obj? && Compatible(e1, e2)
      {
        ExpandKeepsShape(p1.fields[k], Field(base1, k));
        ExpandKeepsShape(p2.fields[k], Field(base2, k));
        if p2.fields[k].Obj? {
          CompatibleExpansions(p1.fields[k], Field(base1, k), p2.fields[k], Field(base2, k));
        }
      }
    } else {
      ExpandKeepsShape(p1, base1);
      ExpandKeepsShape(p2, base2);
    }
  }

  lemma {:induction false} CompatibleWithMerge(a: Json, b: Json, c: Json)
    requires a.Obj? && b.Obj? && Compatible(a, c) && Compatible(b, c)
    ensures Compatible(DeepMerged(a, b), c)
    decreases c
  {
    var m := DeepMerged(a, b);
    if c.Obj? {
      forall k | k in m.fields && k in c.fields && c.fields[k].Obj?
        ensures m.fields[k].Obj? && Compatible(m.fields[k], c.fields[k])
      {
        if k in a.fields && k in b.fields {
          CompatibleWithMerge(a.fields[k], b.fields[k], c.fields[k]);
        }
      }
    }
  }

  // ----- The compiled patch means the edits

  /** What the sub-patches before the last must satisfy on `start`; nothing is asked of the last one alone. */
  ghost predicate Sequencable(start: Json, subs: seq<Json>) {
    && (forall p | p in subs :: p.Obj?)
    && (forall i, j | 0 <= i < j < |subs| ::
          Compatible(subs[i], subs[j]) && AbsorbedBefore(subs[j], Edited(start, subs, i), subs[i]))
    && (forall i | 0 <= i < |subs| - 1 :: Grounded(Edited(start, subs, i), subs[i]))
  }

  lemma SequencablePair(start: Json, subs: seq<Json>, i: nat, j: nat)
    requires Sequencable(start, subs) && i < j < |subs|
    ensures subs[i].Obj? && subs[j].Obj? && Compatible(subs[i], subs[j])
    ensures AbsorbedBefore(subs[j], Edited(start, subs, i), subs[i])
  {
    hide Compatible, AbsorbedBefore, Edited;
  }

  lemma SequencableObjects(start: Json, subs: seq<Json>)
    requires Sequencable(start, subs)
    ensures forall p | p in subs :: p.Obj?
  {
  }

  /** No later sub-patch can tell `working` from the object after the edits so far. */
  lemma {:induction false} WorkingServesLater(start: Json, subs: seq<Json>, n: nat, j: nat)
    requires Sequencable(start, subs) && n <= j < |subs|
    ensures SameFor(subs[j], Working(start, subs, n), Edited(start, subs, n))
    decreases n
  {
    hide Compatible, MergedInto, ExpandNamedLists, Grounded, AbsorbedBefore, SameFor, Sequencable;
    if n == 0 {
      SameIsSame(subs[j], start);
    } else {
      var edit, w, o := subs[n - 1], Working(start, subs, n - 1), Edited(start, subs, n - 1);
      assert Working(start, subs, n) == MergedInto(w, ExpandNamedLists(edit, w));
      assert Edited(start, subs, n) == MergedInto(o, edit);
      hide Working, Edited;
      SequencablePair(start, subs, n - 1, j);
      WorkingServesLater(start, subs, n - 1, n - 1);
      WorkingServesLater(start, subs, n - 1, j);
      StepKeepsSame(subs[j], edit, w, o);
    }
  }

  lemma EmptyIsCompatible(p: Json)
    ensures Compatible(EMPTY_OBJ, p)
  {
  }

  lemma {:induction false} BodyCompatible(start: Json, subs: seq<Json>, n: nat, j: nat, base: Json)
    requires Sequencable(start, subs) && n <= j < |subs|
    ensures Compatible(Body(start, subs, n), ExpandNamedLists(subs[j], base))
    decreases n
  {
    hide DeepMerged, MergedInto, ExpandNamedLists, Grounded, AbsorbedBefore, Compatible, Sequencable;
    SequencableObjects(start, subs);
    if n == 0 {
      EmptyIsCompatible(ExpandNamedLists(subs[j], base));
    } else {
      SequencablePair(start, subs, n - 1, j);
      BodyCompatible(start, subs, n - 1, j, base);
      var w := Working(start, subs, n - 1);
      hide Working;
      CompatibleExpansions(subs[n - 1], w, subs[j], base);
      ExpandKeepsShape(subs[n - 1], w);
      CompatibleWithMerge(Body(start, subs, n - 1), ExpandNamedLists(subs[n - 1], w), ExpandNamedLists(subs[j], base));
    }
  }

  /** A body that stands for `before`, extended by one more expanded edit. */
  lemma ExtendedBody(start: Json, body: Json, before: Json, edit: Json)
    requires body.Obj? && edit.Obj? && MergePatch(start, body) == before
    requires Compatible(body, ExpandNamedLists(edit, before))
    ensures ExpandNamedLists(edit, before).Obj?
    ensures MergePatch(start, DeepMerged(body, ExpandNamedLists(edit, before))) == MergedInto(before, edit) <==>
            Grounded(before, edit)
  {
    ExpandKeepsShape(edit, before);
    hide Compatible, DeepMerged, MergedInto, MergePatch, ExpandNamedLists, Grounded;
    CompatiblePatchesCompose(start, body, ExpandNamedLists(edit, before));
    ExpandedPatchIsMergeExactly(before, edit);
  }

  lemma {:induction false} BodyStep(start: Json, subs: seq<Json>, n: nat)
    requires Sequencable(start, subs) && 0 < n <= |subs|
    requires MergePatch(start, Body(start, subs, n - 1)) == Edited(start, subs, n - 1)
    ensures MergePatch(start, Body(start, subs, n)) == Edited(start, subs, n) <==>
            Grounded(Edited(start, subs, n - 1), subs[n - 1])
  {
    hide Compatible, DeepMerged, MergedInto, MergePatch, ExpandNamedLists, Grounded, AbsorbedBefore, SameFor,
         Sequencable;
    SequencableObjects(start, subs);
    var edit, w, o, b := subs[n - 1], Working(start, subs, n - 1), Edited(start, subs, n - 1), Body(start, subs, n - 1);
    ExpandKeepsShape(edit, w);
    assert Body(start, subs, n) == DeepMerged(b, ExpandNamedLists(edit, w));
    assert Edited(start, subs, n) == MergedInto(o, edit);
    hide Working, Edited, Body;
    WorkingServesLater(start, subs, n - 1, n - 1);
    BodyCompatible(start, subs, n - 1, n - 1, o);
    SameExpansion(edit, w, o);
    ExtendedBody(start, b, o, edit);
  }

  lemma {:induction false} PrefixMeansEdits(start: Json, subs: seq<Json>, n: nat)
    requires start.Obj? && Sequencable(start, subs) && n < |subs|
    ensures MergePatch(start, Body(start, subs, n)) == Edited(start, subs, n)
    decreases n
  {
    hide Compatible, DeepMerged, MergedInto, ExpandNamedLists, Grounded, AbsorbedBefore;
    if n == 0 {
      assert MergePatch(start, EMPTY_OBJ).fields == start.fields;
    } else {
      PrefixMeansEdits(start, subs, n - 1);
      BodyStep(start, subs, n);
    }
  }

  /** Applied once, the compiled patch does what the edits do one after another. */
  ghost predicate MeansEdits(start: Json, subs: seq<Json>)
    requires start.Obj? && forall p | p in subs :: p.Obj?
  {
    MergePatch(start, Body(start, subs, |subs|)) == Edited(start, subs, |subs|)
  }

  /**
   * Applied once by the server, the compiled patch does what the edits do one after another:
   * for any number of sub-patches and any depth, exactly when the last edit is grounded.
   */
  lemma CompiledPatchMeansEdits(start: Json, subs: seq<Json>)
    requires start.Obj? && Sequencable(start, subs) && subs != []
    ensures MeansEdits(start, subs) <==> Grounded(Edited(start, subs, |subs| - 1), subs[|subs| - 1])
  {
    hide Sequencable, MergePatch, Grounded, Body, Edited;
    PrefixMeansEdits(start, subs, |subs| - 1);
    BodyStep(start, subs, |subs|);
  }

  // ----- Sub-patches without nulls can always be sequenced

  lemma {:induction false} TameIsGrounded(base: Json, patch: Json)
    requires Tame(patch)
    ensures NoNullMembers(patch) && Grounded(base, patch)
    decreases patch
  {
    if patch.Obj? {
      forall k | k in patch.fields ensures NoNullMembers(patch.fields[k]) && Grounded(Field(base, k), patch.fields[k]) {
        TameIsGrounded(Field(base, k), patch.fields[k]);
      }
    }
  }

  lemma {:induction false} TameIsAbsorbed(later: Json, base: Json, edit: Json)
    requires Tame(base) && Tame(edit)
    ensures AbsorbedBefore(later, base, edit)
    decreases later
  {
    if later.Obj? && edit.Obj? {
      forall k | k in later.fields && k in edit.fields
        ensures AbsorbedBefore(later.fields[k], Field(base, k), edit.fields[k])
      {
        TameIsAbsorbed(later.fields[k], Field(base, k), edit.fields[k]);
      }
    } else {
      MergeAbsorbs(base, edit);
    }
  }

  lemma {:induction false} EditedStaysTame(start: Json, subs: seq<Json>, n: nat)
    requires Tame(start) && n <= |subs| && forall i | 0 <= i < n :: Tame(subs[i])
    ensures Tame(Edited(start, subs, n))
    decreases n
  {
    hide Tame, MergedInto;
    if n > 0 {
      EditedStaysTame(start, subs, n - 1);
      MergeKeepsTame(Edited(start, subs, n - 1), subs[n - 1]);
    }
  }

  /** Nulls in the last sub-patch only, distinct names, shape-compatible sub-patches: nothing else is needed. */
  lemma TameEditsAreSequencable(start: Json, subs: seq<Json>)
    requires Tame(start)
    requires forall p | p in subs :: p.Obj?
    requires forall i, j | 0 <= i < j < |subs| :: Compatible(subs[i], subs[j])
    requires forall i | 0 <= i < |subs| - 1 :: Tame(subs[i])
    ensures Sequencable(start, subs)
  {
    hide Tame, Working, Edited, Grounded, AbsorbedBefore, Compatible;
    forall i | 0 <= i < |subs| - 1 ensures Grounded(Edited(start, subs, i), subs[i]) {
      TameIsGrounded(Edited(start, subs, i), subs[i]);
    }
    forall i, j | 0 <= i < j < |subs| ensures AbsorbedBefore(subs[j], Edited(start, subs, i), subs[i]) {
      EditedStaysTame(start, subs, i);
      TameIsAbsorbed(subs[j], Edited(start, subs, i), subs[i]);
    }
  }

  // ----- The fast path

  lemma {:induction false} NothingToExpand(patch: Json, current: Json)
    requires !HasNamedList(patch)
    ensures ExpandNamedLists(patch, current) == patch
    decreases patch
  {
    if patch.Obj? {
      forall k | k in patch.fields ensures ExpandNamedLists(patch.fields[k], Field(current, k)) == patch.fields[k] {
        NothingToExpand(patch.fields[k], Field(current, k));
      }
      assert ExpandNamedLists(patch, current).fields == patch.fields;
    }
  }

  /** Without named lists both paths give the same body, whatever the current object is. */
  lemma {:induction false} FastPathAgrees(start: Json, subs: seq<Json>, n: nat)
    requires n <= |subs| && forall p | p in subs :: p.Obj? && !HasNamedList(p)
    ensures Body(start, subs, n) == PlainBody(subs, n)
    decreases n
  {
    hide MergedInto, DeepMerged, ExpandNamedLists, HasNamedList, Working;
    if n > 0 {
      FastPathAgrees(start, subs, n - 1);
      NothingToExpand(subs[n - 1], Working(start, subs, n - 1));
    }
  }

  // ----- The whole object

  /** The router starts from a copy of the spec alone. */
  function SpecOf(current: Json): Json {
    Obj(map["spec" := if current.Obj? && "spec" in current.fields then current.fields["spec"] else EMPTY_OBJ])
  }

  predicate EditsSpecOnly(p: Json) {
    p.Obj? && forall k | k in p.fields :: k == "spec" && p.fields[k].Obj?
  }

  lemma {:induction false} BodyEditsSpecOnly(start: Json, subs: seq<Json>, n: nat)
    requires n <= |subs| && forall p | p in subs :: p.Obj? && EditsSpecOnly(p)
    ensures EditsSpecOnly(Body(start, subs, n))
    decreases n
  {
    hide DeepMerged;
    if n > 0 {
      BodyEditsSpecOnly(start, subs, n - 1);
      var w := Working(start, subs, n - 1);
      hide Working;
      var before, e := Body(start, subs, n - 1), ExpandNamedLists(subs[n - 1], w);
      assert EditsSpecOnly(e) by {
        forall k | k in e.fields ensures k == "spec" && e.fields[k].Obj? {
          ExpandKeepsShape(subs[n - 1].fields[k], Field(w, k));
        }
      }
      MergedEditsSpecOnly(before, e);
    }
  }

  lemma MergedEditsSpecOnly(a: Json, b: Json)
    requires EditsSpecOnly(a) && EditsSpecOnly(b)
    ensures EditsSpecOnly(DeepMerged(a, b))
  {
  }

  /** Metadata and status are left alone; the spec becomes what the body makes of the spec copy. */
  lemma {:induction false} PatchTouchesSpecOnly(current: Json, body: Json)
    requires current.Obj? && EditsSpecOnly(body) && body.fields != map[]
    ensures MergePatch(current, body) ==
            Obj(current.fields["spec" := Field(MergePatch(SpecOf(current), body), "spec")])
  {
    assert "spec" in body.fields by {
      var k :| k in body.fields;
    }
    MemberOfPatch(current, body, "spec");
    MemberOfPatch(SpecOf(current), body, "spec");
    var p, held := body.fields["spec"], Field(current, "spec");
    assert MergePatch(held, p) == MergePatch(Field(SpecOf(current), "spec"), p) by {
      if !("spec" in current.fields) {
        assert MergePatch(Null, p).fields == MergePatch(EMPTY_OBJ, p).fields;
      }
    }
    assert MergePatch(current, body).fields == current.fields["spec" := MergePatch(held, p)];
  }

  /** An object-valued member of a patch, seen alone. */
  lemma MemberOfPatch(target: Json, body: Json, k: string)
    requires body.Obj? && k in body.fields && body.fields[k].Obj?
    ensures Field(MergePatch(target, body), k) == MergePatch(Field(target, k), body.fields[k])
  {
  }
}
