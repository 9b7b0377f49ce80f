/**
 * The argument loop at the top of `main`: `-f <filename>` and `-d <date>`.
 */
module Arguments {
  import opened Options

  /** The two values `main` needs before it can go on. */
  datatype Invocation = Invocation(filename: string, dateText: string)

  /** `args[i]` is `flag`, with an argument after it, and no later argument
      but the last is `flag`. */
  predicate LastFlagAt(args: seq<string>, flag: string, i: int)
  {
    && 0 <= i < |args| - 1
    && args[i] == flag
    && forall j :: i < j < |args| - 1 ==> args[j] != flag
  }

  /** The argument after the last occurrence of `flag` that has an argument
      after it; None when there is no such occurrence. */
  function FlagValue(args: seq<string>, flag: string): (r: Option<string>)
    ensures r.Some? <==> exists i :: 0 <= i < |args| - 1 && args[i] == flag
    ensures r.Some? ==> exists i :: LastFlagAt(args, flag, i) && args[i + 1] == r.value
  {
    if |args| < 2 then None
    else if args[|args| - 2] == flag then
      assert LastFlagAt(args, flag, |args| - 2);
      Some(args[|args| - 1])
    else
      var shorter := args[..|args| - 1];
      assert forall i :: LastFlagAt(shorter, flag, i) ==> LastFlagAt(args, flag, i) && shorter[i + 1] == args[i + 1];
      FlagValue(shorter, flag)
  }

  /** The loop over `args`: each `-f` or `-d` followed by another argument
      sets its variable to that argument; the usage case is None. */
  method ParseArgs(args: seq<string>) returns (r: Option<Invocation>)
    ensures r.Some? <==> FlagValue(args, "-f").Some? && FlagValue(args, "-d").Some?
    ensures r.Some? ==> r.value == Invocation(FlagValue(args, "-f").value, FlagValue(args, "-d").value)
  {
    var filename: Option<string> := None;
    var dateStr: Option<string> := None;
    for i := 0 to |args|
      invariant filename == FlagValue(args[..if i < |args| then i + 1 else i], "-f")
      invariant dateStr == FlagValue(args[..if i < |args| then i + 1 else i], "-d")
    {
      assert args[..i + 1] == args[..if i + 1 < |args| then i + 2 else i + 1][..i + 1];
      if args[i] == "-f" && i + 1 < |args| {
        filename := Some(args[i + 1]);
      } else if args[i] == "-d" && i + 1 < |args| {
        dateStr := Some(args[i + 1]);
      }
    }
    assert args[..|args|] == args;
    if filename.None? || dateStr.None? {
      return None;
    }
    return Some(Invocation(filename.value, dateStr.value));
  }

  /** A later occurrence of a flag overrides an earlier one: the value after
      the last `flag` that has an argument after it wins. */
  lemma {:induction false} LaterFlagOverrides(a: seq<string>, flag: string, v: string, b: seq<string>)
    requires b != [] ==> v != flag
    requires forall j :: 0 <= j < |b| - 1 ==> b[j] != flag
    ensures FlagValue(a + [flag, v] + b, flag) == Some(v)
  {
    if b != [] {
      var args := a + [flag, v] + b;
      var shorter := a + [flag, v] + b[..|b| - 1];
      assert args[..|args| - 1] == shorter;
      assert args[|args| - 2] != flag by {
        if |b| == 1 { assert args[|args| - 2] == v; } else { assert args[|args| - 2] == b[|b| - 2]; }
      }
      LaterFlagOverrides(a, flag, v, b[..|b| - 1]);
    }
  }

  /** A flag in the last position, with nothing after it, is ignored. */
  lemma FinalFlagIgnored(args: seq<string>, flag: string)
    requires args == [] || args[|args| - 1] != flag
    ensures FlagValue(args + [flag], flag) == FlagValue(args, flag)
  {
    assert (args + [flag])[..|args|] == args;
  }
}
