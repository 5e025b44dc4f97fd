/** The in-place edit of a custom resource. */
module CustomResources {
  import opened JsonValues
  import opened PatchAlgebra
  import opened Args
  import opened Adapters
  import opened Words

  class CustomResource {
    const kind: CrKind
    var body: Json

    constructor (kind: CrKind, body: Json)
      ensures this.kind == kind && this.body == body
    {
      this.kind, this.body := kind, body;
    }

    /** `apply_args_to_cr`: edits the body, and returns a body fit for create. */
    method ApplyArgs(newer: seq<Entry>) returns (clean: Json)
      requires WellShaped(kind, body)
      modifies this`body
      ensures body == Applied(kind, old(body), newer)
      ensures clean == CleanForCreate(body)
    {
      hide CleanForCreate, Overridden, NewValue, Split, FromStrings;
      var patch := BuildArgsPatch(kind, body, newer);
      if kind.InferenceService? {
        var args := Field(Field(Field(Field(patch, "spec"), "predictor"), "model"), "args");
        var spec := Sub(body, "spec");
        var predictor := Sub(spec, "predictor");
        var model := Sub(predictor, "model");
        body := With(body, "spec", With(spec, "predictor", With(predictor, "model", With(model, "args", args))));
      } else {
        var value := Str(NewValue(AdditionalArgs(body), newer));
        EditMainContainer(value);
      }
      clean := CleanForCreate(body);
    }

    method EditMainContainer(value: Json)
      requires LlmShape(body) && value.Str?
      modifies this`body
      ensures body == LlmWithValue(old(body), value.s)
    {
      hide PlainText;
      var spec := Sub(body, "spec");
      var template := Sub(spec, "template");
      var containers := ListOf(Field(template, "containers"));
      var i := FirstCalled(containers, MAIN_CONTAINER);
      var at := FindNamed(containers, MAIN_CONTAINER);
      if i == |containers| {
        containers := containers + [With(Called(MAIN_CONTAINER), "env", Arr([]))];
      }
      var env := ListOf(Field(containers[i], "env"));
      assert env == Env(body);
      var j := FirstCalled(env, ADDITIONAL_ARGS);
      if j < |env| {
        env := env[j := With(env[j], "value", value)];
      } else {
        env := env + [With(Called(ADDITIONAL_ARGS), "value", value)];
      }
      assert env == Upsert(Env(body), ADDITIONAL_ARGS, "value", value);
      WithTwice(Called(MAIN_CONTAINER), "env", Arr([]), Arr(env));
      containers := containers[i := With(containers[i], "env", Arr(env))];
      assert containers == Upsert(Containers(body), MAIN_CONTAINER, "env", Arr(env));
      body := With(body, "spec", With(spec, "template", With(template, "containers", Arr(containers))));
    }
  }

  /** The first position holding an item of that name; the length when there is none. */
  method FirstCalled(items: seq<Json>, name: string) returns (i: nat)
    ensures i <= |items|
    ensures FindNamed(items, name) == if i < |items| then Some(i) else None
  {
    i := 0;
    while i < |items| && Field(items[i], "name") != Str(name)
      invariant i <= |items|
      invariant forall j | 0 <= j < i :: Field(items[j], "name") != Str(name)
    {
      i := i + 1;
    }
    if i < |items| { FirstNamed(items, name, i); }
  }
}
