/** JSON values, and the JSON merge patch of RFC 7396 that the API server applies. */
module JsonValues {

  datatype Json =
    | Null
    | Bool(b: bool)
    | Num(n: real)
    | Str(s: string)
    | Arr(items: seq<Json>)
    | Obj(fields: map<string, Json>)

  const EMPTY_OBJ: Json := Obj(map[])

  /** Python's `d.get(k)`: None for an absent key; also None when `j` is no dictionary at all. */
  function Field(j: Json, k: string): Json {
    if j.Obj? && k in j.fields then j.fields[k] else Null
  }

  /** MergePatch of RFC 7396, section 2. */
  function MergePatch(target: Json, patch: Json): Json
    decreases patch
  {
    if patch.Obj? then
      var kept := if target.Obj? then target.fields else map[];
      Obj(map k | k in kept.Keys + patch.fields.Keys && !(k in patch.fields && patch.fields[k].Null?) ::
            if k in patch.fields then MergePatch(Field(target, k), patch.fields[k]) else kept[k])
    else patch
  }

  /** No key reachable through objects alone carries null. */
  predicate NoNullMembers(j: Json) {
    j.Obj? ==> forall k | k in j.fields :: !j.fields[k].Null? && NoNullMembers(j.fields[k])
  }

  /** A patch laid over something that is no object comes back unchanged exactly when it deletes nothing. */
  lemma {:induction false} MergePatchOverNonObject(target: Json, patch: Json)
    requires !target.Obj?
    ensures MergePatch(target, patch) == patch <==> NoNullMembers(patch)
    decreases patch
  {
    if patch.Obj? {
      var r := MergePatch(target, patch);
      forall k | k in patch.fields
        ensures MergePatch(Null, patch.fields[k]) == patch.fields[k] <==> NoNullMembers(patch.fields[k])
      {
        MergePatchOverNonObject(Null, patch.fields[k]);
      }
      if NoNullMembers(patch) {
        assert r.fields == patch.fields;
      } else {
        var k :| k in patch.fields && (patch.fields[k].Null? || !NoNullMembers(patch.fields[k]));
        assert k !in r.fields || r.fields[k] != patch.fields[k];
      }
    }
  }

  /** Some key lies outside any finite set of keys. */
  lemma FreshKey(keys: set<string>) returns (z: string)
    ensures z !in keys
  {
    var n: nat, rest := 0, keys;
    while rest != {}
      invariant rest <= keys
      invariant forall x :: x in keys && x !in rest ==> |x| < n
      decreases rest
    {
      var x :| x in rest;
      rest := rest - {x};
      if |x| >= n { n := |x| + 1; }
    }
    z := seq(n, _ => 'z');
  }
}
