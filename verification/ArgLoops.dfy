/** The command-line loops of the adapters, proved against `Args`. */
module ArgLoops {
  import opened PatchAlgebra
  import opened Args

  method ArgsListToConfigDict(args: seq<string>) returns (result: seq<Entry>)
    ensures result == Parse(args)
  {
    hide IsFlag, StartsDashDash, KeyOfAssignment, AfterEquals, Put, Flag;
    result := [];
    var i := 0;
    while i < |args|
      invariant i <= |args| && ParseFrom(args[i..], result) == Parse(args)
    {
      var arg := args[i];
      ghost var rest := args[i..];
      i := i + 1;
      if IsFlag(arg) {
        if i < |args| && !StartsDashDash(args[i]) {
          result := Put(result, KeyOfFlag(arg), args[i]);
          i := i + 1;
        }
      } else {
        match KeyOfAssignment(arg) {
          case Some(k) => result := Put(result, k, AfterEquals(arg));
          case None =>
        }
      }
      assert args[i..] == rest[Width(rest)..];
    }
  }

  method StripTuningArgs(args: seq<string>) returns (kept: seq<string>)
    ensures kept == Strip(args)
  {
    hide IsFlag, TuningPrefix, StartsDashDash, Flag;
    kept := [];
    var i := 0;
    while i < |args|
      invariant i <= |args| && kept + Strip(args[i..]) == Strip(args)
    {
      var arg := args[i];
      ghost var rest := args[i..];
      i := i + 1;
      if IsFlag(arg) {
        FlagHasPrefix(arg);
        if i < |args| && !StartsDashDash(args[i]) {
          i := i + 1;
        }
      } else if !TuningPrefix(arg) {
        kept := kept + [arg];
      }
      assert args[i..] == rest[Width(rest)..];
    }
  }

  method ConfigDictToArgsList(config: seq<Entry>) returns (result: seq<string>)
    ensures result == Print(config)
  {
    hide Flag;
    result := [];
    for i := 0 to |config|
      invariant result + Print(config[i..]) == Print(config)
    {
      if !config[i].key.Other? && config[i].value != "" {
        result := result + [Assignment(config[i].key, config[i].value)];
      }
      assert config[i..][1..] == config[i + 1..];
    }
  }
}
