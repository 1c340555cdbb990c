/**
 * Arguments: the command line kept as a list of strings, with lookups of
 * flags written `/name` or `-name` and of the value that follows such a
 * flag.
 */
module CommandLine {
  import opened Wrappers

  /** An argument names the flag when it is the flag with a '/' or a '-' in front. */
  predicate Matches(argument: string, flag: string)
  {
    argument == "/" + flag || argument == "-" + flag
  }

  /** Some stored argument names the flag. */
  predicate HasMatch(args: seq<string>, flag: string)
  {
    exists i :: 0 <= i < |args| && Matches(args[i], flag)
  }

  /** The first index from `from` on, below the last position, whose argument names the flag. */
  function MatchIndex(args: seq<string>, flag: string, from: nat): (r: Option<nat>)
    ensures r.Some? ==>
      && from <= r.value < |args| - 1 && Matches(args[r.value], flag)
      && forall k :: from <= k < r.value ==> !Matches(args[k], flag)
    ensures r.None? ==> forall k :: from <= k < |args| - 1 ==> !Matches(args[k], flag)
    decreases |args| - from
  {
    if from >= |args| - 1 then None
    else if Matches(args[from], flag) then Some(from)
    else MatchIndex(args, flag, from + 1)
  }

  /** The value getArg returns: the argument after the first flag found, or "" when there is none. */
  function ArgValue(args: seq<string>, flag: string): string
  {
    match MatchIndex(args, flag, 0)
    case None => ""
    case Some(i) => args[i + 1]
  }

  class Arguments {
    var args: seq<string>

    constructor ()
      ensures args == []
    {
      args := [];
    }

    /** setArgs: the stored arguments become argv[0..argc), program name included. */
    method SetArgs(argc: int, argv: seq<string>)
      requires argc <= |argv|
      modifies this
      ensures args == if argc <= 0 then [] else argv[..argc]
    {
      args := [];
      var i := 0;
      while i < argc
        invariant 0 <= i <= (if argc < 0 then 0 else argc)
        invariant args == argv[..i]
      {
        args := args + [argv[i]];
        i := i + 1;
      }
    }

    /** hasArg: some stored argument is `/flag` or `-flag`. */
    method HasArg(flag: string) returns (b: bool)
      ensures b <==> HasMatch(args, flag)
    {
      for i := 0 to |args|
        invariant forall k :: 0 <= k < i ==> !Matches(args[k], flag)
      {
        if args[i] == "/" + flag || args[i] == "-" + flag {
          return true;
        }
      }
      return false;
    }

    /**
     * getArg: the argument right after the first `/flag` or `-flag` found
     * below the last position, or "" when there is none.
     */
    method GetArg(flag: string) returns (r: string)
      ensures r == ArgValue(args, flag)
    {
      if |args| > 1 {
        for i := 0 to |args| - 1
          invariant MatchIndex(args, flag, 0) == MatchIndex(args, flag, i)
        {
          if args[i] == "/" + flag || args[i] == "-" + flag {
            return args[i + 1];
          }
        }
      }
      return "";
    }
  }

  /** The value getArg returns is the argument after the first flag found below the last position. */
  lemma ArgValueFollowsFirstMatch(args: seq<string>, flag: string, i: nat)
    requires i < |args| - 1 && Matches(args[i], flag)
    requires forall k :: 0 <= k < i ==> !Matches(args[k], flag)
    ensures ArgValue(args, flag) == args[i + 1]
  {
    var m := MatchIndex(args, flag, 0);
    assert m.Some? && m.value == i;
  }

  /** With fewer than two arguments, or no flag before the last position, the value is "". */
  lemma ArgValueEmpty(args: seq<string>, flag: string)
    requires |args| < 2 || forall k :: 0 <= k < |args| - 1 ==> !Matches(args[k], flag)
    ensures ArgValue(args, flag) == ""
  {
  }

  /** A non-empty value implies the flag is present. */
  lemma ArgValueImpliesHasArg(args: seq<string>, flag: string)
    ensures ArgValue(args, flag) != "" ==> HasMatch(args, flag)
  {
    var m := MatchIndex(args, flag, 0);
    if m.Some? {
      assert Matches(args[m.value], flag);
    }
  }

  /** A flag given only as the last argument is present but has no value. */
  lemma TrailingFlagHasNoValue(args: seq<string>, flag: string)
    requires |args| > 0 && Matches(args[|args| - 1], flag)
    requires forall k :: 0 <= k < |args| - 1 ==> !Matches(args[k], flag)
    ensures HasMatch(args, flag) && ArgValue(args, flag) == ""
  {
    ArgValueEmpty(args, flag);
  }

  /** A value that itself looks like the flag is returned as the value. */
  lemma FlagValueMayBeFlag(flag: string)
    ensures ArgValue(["-" + flag, "-" + flag], flag) == "-" + flag
  {
    assert Matches(["-" + flag, "-" + flag][0], flag);
  }
}
