/**
 Command construction for the external `sisho` tool: where the tool lives,
 the argument vectors of the `deps-graph` and `make` calls, and the title of
 the output panel opened for a call (`getSishoPath`, `updateDependencyGraph`,
 `executeMake` and `getContentTitle` in Make.kt).
 */
module Commands {
  import opened Wrappers

  /** The fixed location of the tool below the user's home directory. */
  const ToolSuffix: string := "/go/bin/sisho"

  /** Literal subcommands and flags the plugin passes to the tool. */
  const DepsGraphVerb: string := "deps-graph"
  const MakeVerb: string := "make"
  const AllFlag: string := "-a"
  const InteractiveFlag: string := "-i"
  const ChainFlag: string := "-c"

  /** Separator between the action and the target in a panel title. */
  const TitleSeparator: string := ": "

  function Last<T>(s: seq<T>): T
    requires |s| > 0
  {
    s[|s| - 1]
  }

  /** The tool path: the home directory followed by the fixed suffix. */
  function ToolPath(home: string): (r: string)
    ensures |r| == |home| + |ToolSuffix|
    ensures r[..|home|] == home
    ensures r[|home|..] == ToolSuffix
  {
    home + ToolSuffix
  }

  /** Different home directories never yield the same tool path. */
  lemma ToolPathInjective(h1: string, h2: string)
    requires ToolPath(h1) == ToolPath(h2)
    ensures h1 == h2
  {
    assert h1 == ToolPath(h1)[..|h1|];
  }

  /** The argument vector of the dependency-graph refresh. */
  function DepsGraphArgv(tool: string): (r: seq<string>)
    ensures |r| == 2 && r[0] == tool && r[1] == DepsGraphVerb
  {
    [tool, DepsGraphVerb]
  }

  /** The argument vector of one `make` call: tool, `make`, `-a`, `-i`,
      then `-c` exactly in chain mode, then the relative target path. */
  function MakeArgv(tool: string, chain: bool, target: string): (r: seq<string>)
    ensures |r| == (if chain then 6 else 5)
    ensures r[..4] == [tool, MakeVerb, AllFlag, InteractiveFlag]
    ensures chain ==> r[4] == ChainFlag
    ensures Last(r) == target
  {
    [tool, MakeVerb, AllFlag, InteractiveFlag]
      + (if chain then [ChainFlag] else [])
      + [target]
  }

  /** What a `make` argument vector says: which tool, whether chained, which target. */
  datatype MakeCommand = MakeCommand(tool: string, chain: bool, target: string)

  /** Reads a `make` argument vector back; the inverse of `MakeArgv`. */
  function ParseMakeArgv(argv: seq<string>): (r: Option<MakeCommand>)
    ensures r.Some? ==> MakeArgv(r.value.tool, r.value.chain, r.value.target) == argv
    ensures r.None? ==> forall tool, chain, target :: MakeArgv(tool, chain, target) != argv
  {
    if |argv| == 5 && argv[1..4] == [MakeVerb, AllFlag, InteractiveFlag] then
      Some(MakeCommand(argv[0], false, argv[4]))
    else if |argv| == 6 && argv[1..5] == [MakeVerb, AllFlag, InteractiveFlag, ChainFlag] then
      Some(MakeCommand(argv[0], true, argv[5]))
    else
      None
  }

  /** Building a `make` argument vector and reading it back loses nothing. */
  lemma ParseMakeArgvRoundTrip(tool: string, chain: bool, target: string)
    ensures ParseMakeArgv(MakeArgv(tool, chain, target)) == Some(MakeCommand(tool, chain, target))
  {
    var argv := MakeArgv(tool, chain, target);
    if chain {
      assert argv[1..5] == [MakeVerb, AllFlag, InteractiveFlag, ChainFlag];
    } else {
      assert argv[1..4] == [MakeVerb, AllFlag, InteractiveFlag];
    }
  }

  /** The panel title for an argument vector: the action (second element),
      a colon and a space, then the last element. Fewer than two elements
      would make `command[1]` in `getContentTitle` (Make.kt:143) fail. */
  function ContentTitle(argv: seq<string>): (r: string)
    requires |argv| >= 2
    ensures |r| == |argv[1]| + |TitleSeparator| + |Last(argv)|
    ensures r[..|argv[1]|] == argv[1]
    ensures r[|argv[1]|..|argv[1]| + 2] == TitleSeparator
    ensures r[|argv[1]| + 2..] == Last(argv)
  {
    argv[1] + TitleSeparator + Last(argv)
  }

  /** The title of every `make` panel is `make: ` followed by the target,
      whatever the tool path and the chain flag. */
  lemma MakeTitle(tool: string, chain: bool, target: string)
    ensures ContentTitle(MakeArgv(tool, chain, target)) == MakeVerb + TitleSeparator + target
  {
  }

  /** Two `make` panels share a title exactly when they share a target. */
  lemma MakeTitleInjective(tool1: string, chain1: bool, target1: string,
                           tool2: string, chain2: bool, target2: string)
    ensures ContentTitle(MakeArgv(tool1, chain1, target1)) == ContentTitle(MakeArgv(tool2, chain2, target2))
            <==> target1 == target2
  {
    MakeTitle(tool1, chain1, target1);
    MakeTitle(tool2, chain2, target2);
    var prefix := MakeVerb + TitleSeparator;
    if ContentTitle(MakeArgv(tool1, chain1, target1)) == ContentTitle(MakeArgv(tool2, chain2, target2)) {
      assert target1 == (prefix + target1)[|prefix|..];
      assert target2 == (prefix + target2)[|prefix|..];
    }
  }
}
