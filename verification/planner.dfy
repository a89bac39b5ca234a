/**
 The invocation planner of the `Make` action (`actionPerformed`,
 `updateDependencyGraph` and `executeMake` in Make.kt): which external
 commands are issued, in what order, with which argument vectors, which
 standard input and which panel titles. Relative paths are taken as given;
 the tool path is derived from the home directory.
 */
module Planner {
  import opened Wrappers
  import opened Commands

  /** The menu text that selects chain mode. */
  const ChainMakeText: string := "Chain Make"

  /** What the action reads from its event: whether a project is open, the
      selected files (already as paths relative to the project root, or
      `None` when the event carries no selection) and the menu text. */
  datatype ActionEvent = ActionEvent(hasProject: bool, selection: Option<seq<string>>, presentationText: string)

  /** The instructions dialog: dismissed, or accepted with its text. */
  datatype DialogOutcome = Cancelled | Accepted(text: string)

  /** One issued command. The dependency-graph refresh runs through the
      blocking runner, which waits for the process to exit; a make call runs
      through the streaming runner and opens a titled output panel. */
  datatype Invocation =
    | DepsGraphCall(argv: seq<string>, stdin: Option<string>)
    | MakeCall(argv: seq<string>, stdin: Option<string>, title: string)

  predicate IsChainMake(presentationText: string) {
    presentationText == ChainMakeText
  }

  /** The refresh is issued without any standard input. */
  function DepsGraphInvocation(tool: string): (r: Invocation)
    ensures r.DepsGraphCall?
    ensures r.argv == [tool, DepsGraphVerb]
    ensures r.stdin.None?
  {
    DepsGraphCall(DepsGraphArgv(tool), None)
  }

  /** One make call: its argument vector reads back as this tool, mode and
      target, it receives the dialog text as standard input, and its panel
      is titled `make: ` followed by the target. */
  function MakeInvocation(tool: string, chain: bool, target: string, input: string): (r: Invocation)
    ensures r.MakeCall?
    ensures ParseMakeArgv(r.argv) == Some(MakeCommand(tool, chain, target))
    ensures r.stdin == Some(input)
    ensures r.title == MakeVerb + TitleSeparator + target
  {
    var argv := MakeArgv(tool, chain, target);
    ParseMakeArgvRoundTrip(tool, chain, target);
    MakeTitle(tool, chain, target);
    MakeCall(argv, Some(input), ContentTitle(argv))
  }

  /** The loop of `executeMake`: one make call per file, in selection order. */
  function MakeCalls(tool: string, chain: bool, files: seq<string>, input: string): (r: seq<Invocation>)
    ensures |r| == |files|
    ensures forall k :: 0 <= k < |files| ==> r[k] == MakeInvocation(tool, chain, files[k], input)
  {
    if |files| == 0 then []
    else [MakeInvocation(tool, chain, files[0], input)] + MakeCalls(tool, chain, files[1..], input)
  }

  /** The background task: the refresh first in chain mode, then the make calls. */
  function RunPlan(chain: bool, tool: string, files: seq<string>, input: string): (r: seq<Invocation>)
    ensures |r| == |files| + (if chain then 1 else 0)
    ensures chain ==> r[0] == DepsGraphInvocation(tool)
    ensures forall k :: 0 <= k < |files| ==>
              r[k + (if chain then 1 else 0)] == MakeInvocation(tool, chain, files[k], input)
  {
    (if chain then [DepsGraphInvocation(tool)] else []) + MakeCalls(tool, chain, files, input)
  }

  /** Whether the action goes ahead and issues commands at all. */
  predicate Proceeds(event: ActionEvent, dialog: DialogOutcome) {
    event.hasProject && event.selection.Some? && dialog.Accepted?
  }

  /** The whole action: nothing is issued without a project, without a
      selection, or when the dialog is dismissed. */
  function Plan(event: ActionEvent, dialog: DialogOutcome, home: string): (r: seq<Invocation>)
    ensures !event.hasProject || event.selection.None? || dialog.Cancelled? ==> r == []
  {
    if !Proceeds(event, dialog) then []
    else RunPlan(IsChainMake(event.presentationText), ToolPath(home), event.selection.value, dialog.text)
  }

  /** How many dependency-graph refreshes a plan issues. */
  function DepsGraphCount(plan: seq<Invocation>): nat
  {
    if |plan| == 0 then 0
    else (if plan[0].DepsGraphCall? then 1 else 0) + DepsGraphCount(plan[1..])
  }

  /** The targets of a plan's make calls, in issue order. */
  function MakeTargets(plan: seq<Invocation>): seq<string>
  {
    if |plan| == 0 then []
    else if plan[0].MakeCall? && |plan[0].argv| > 0 then [Last(plan[0].argv)] + MakeTargets(plan[1..])
    else MakeTargets(plan[1..])
  }

  lemma {:induction false} MakeCallsHaveNoDepsGraph(tool: string, chain: bool, files: seq<string>, input: string)
    ensures DepsGraphCount(MakeCalls(tool, chain, files, input)) == 0
    decreases |files|
  {
    if |files| > 0 {
      var r := MakeCalls(tool, chain, files, input);
      assert r[1..] == MakeCalls(tool, chain, files[1..], input);
      MakeCallsHaveNoDepsGraph(tool, chain, files[1..], input);
    }
  }

  lemma {:induction false} MakeCallsTargets(tool: string, chain: bool, files: seq<string>, input: string)
    ensures MakeTargets(MakeCalls(tool, chain, files, input)) == files
    decreases |files|
  {
    if |files| > 0 {
      var r := MakeCalls(tool, chain, files, input);
      assert r[1..] == MakeCalls(tool, chain, files[1..], input);
      MakeCallsTargets(tool, chain, files[1..], input);
      assert files == [files[0]] + files[1..];
    }
  }

  /** A dismissed dialog issues no command. */
  lemma CancelledIssuesNothing(event: ActionEvent, home: string)
    ensures Plan(event, Cancelled, home) == []
  {
  }

  /** Exactly one refresh in chain mode, none otherwise, and in chain mode it
      is the first command issued. */
  lemma DepsGraphOnlyInChainMode(event: ActionEvent, dialog: DialogOutcome, home: string)
    ensures DepsGraphCount(Plan(event, dialog, home)) ==
            (if Proceeds(event, dialog) && IsChainMake(event.presentationText) then 1 else 0)
    ensures Proceeds(event, dialog) && IsChainMake(event.presentationText) ==>
            Plan(event, dialog, home)[0] == DepsGraphCall([ToolPath(home), DepsGraphVerb], None)
  {
    if Proceeds(event, dialog) {
      var chain := IsChainMake(event.presentationText);
      var tool := ToolPath(home);
      var files := event.selection.value;
      var input := dialog.text;
      var r := RunPlan(chain, tool, files, input);
      MakeCallsHaveNoDepsGraph(tool, chain, files, input);
      if chain {
        assert r[1..] == MakeCalls(tool, chain, files, input);
      } else {
        assert r == MakeCalls(tool, chain, files, input);
      }
    }
  }

  /** The make calls name the selected files, one each, in selection order. */
  lemma MakesFollowSelection(event: ActionEvent, dialog: DialogOutcome, home: string)
    requires Proceeds(event, dialog)
    ensures MakeTargets(Plan(event, dialog, home)) == event.selection.value
  {
    var chain := IsChainMake(event.presentationText);
    var tool := ToolPath(home);
    var files := event.selection.value;
    var input := dialog.text;
    var r := RunPlan(chain, tool, files, input);
    MakeCallsTargets(tool, chain, files, input);
    if chain {
      assert r == [DepsGraphInvocation(tool)] + MakeCalls(tool, chain, files, input);
      assert r[1..] == MakeCalls(tool, chain, files, input);
    } else {
      assert r == MakeCalls(tool, chain, files, input);
    }
  }

  /** Every make call in a plan: the fixed `make -a -i` prefix, `-c` exactly
      in chain mode, the target last (six elements in chain mode, five
      otherwise); the dialog text unchanged as standard input; and a panel
      titled `make: ` followed by the target. */
  lemma MakeCallShape(event: ActionEvent, dialog: DialogOutcome, home: string, i: nat)
    requires Proceeds(event, dialog)
    requires i < |Plan(event, dialog, home)|
    requires Plan(event, dialog, home)[i].MakeCall?
    ensures var chain := IsChainMake(event.presentationText);
            var inv := Plan(event, dialog, home)[i];
            var k := if chain then i - 1 else i;
            && 0 <= k < |event.selection.value|
            && |inv.argv| == (if chain then 6 else 5)
            && inv.argv[..4] == [ToolPath(home), MakeVerb, AllFlag, InteractiveFlag]
            && (chain ==> inv.argv[4] == ChainFlag)
            && inv.argv == MakeArgv(ToolPath(home), chain, event.selection.value[k])
            && Last(inv.argv) == event.selection.value[k]
            && inv.stdin == Some(dialog.text)
            && inv.title == ContentTitle(inv.argv)
            && inv.title == MakeVerb + TitleSeparator + event.selection.value[k]
  {
    var chain := IsChainMake(event.presentationText);
    var tool := ToolPath(home);
    var files := event.selection.value;
    var k := if chain then i - 1 else i;
    var inv := RunPlan(chain, tool, files, dialog.text)[i];
    assert inv == MakeInvocation(tool, chain, files[k], dialog.text);
    assert inv.argv == MakeArgv(tool, chain, files[k]);
    MakeTitle(tool, chain, files[k]);
  }

  /** The shape every plan has: a refresh first exactly when `chain` holds,
      and only make calls after it. */
  predicate RefreshThenMakes(plan: seq<Invocation>, chain: bool) {
    && (chain ==> |plan| > 0 && plan[0].DepsGraphCall?)
    && forall k :: (if chain then 1 else 0) <= k < |plan| ==> plan[k].MakeCall?
  }

  /** A plan opens with the refresh when the action proceeds in chain mode,
      and every command after that opening is a make call. */
  lemma PlanAfterRefreshIsMakes(event: ActionEvent, dialog: DialogOutcome, home: string)
    ensures RefreshThenMakes(Plan(event, dialog, home), Proceeds(event, dialog) && IsChainMake(event.presentationText))
  {
    var plan := Plan(event, dialog, home);
    if Proceeds(event, dialog) {
      var chain := IsChainMake(event.presentationText);
      var off := if chain then 1 else 0;
      forall k | off <= k < |plan|
        ensures plan[k].MakeCall?
      {
        assert plan[k] == MakeInvocation(ToolPath(home), chain, event.selection.value[k - off], dialog.text);
      }
    }
  }

  /** Chain mode is chosen by the menu text alone: only the exact text
      `Chain Make` yields a refresh and make calls carrying `-c`. */
  lemma MenuTextSelectsMode(event: ActionEvent, dialog: DialogOutcome, home: string)
    requires Proceeds(event, dialog)
    ensures DepsGraphCount(Plan(event, dialog, home)) == 1 <==> event.presentationText == ChainMakeText
    ensures forall i :: 0 <= i < |Plan(event, dialog, home)| && Plan(event, dialog, home)[i].MakeCall? ==>
              (|Plan(event, dialog, home)[i].argv| == 6 <==> event.presentationText == ChainMakeText)
  {
    DepsGraphOnlyInChainMode(event, dialog, home);
    forall i | 0 <= i < |Plan(event, dialog, home)| && Plan(event, dialog, home)[i].MakeCall?
      ensures |Plan(event, dialog, home)[i].argv| == 6 <==> event.presentationText == ChainMakeText
    {
      MakeCallShape(event, dialog, home, i);
    }
  }

  /** The invocation sequence for two targets in chain mode with the text `hello`. */
  lemma ChainExample(home: string)
    ensures var tool := ToolPath(home);
            Plan(ActionEvent(true, Some(["a.txt", "b.txt"]), "Chain Make"), Accepted("hello"), home) ==
            [ DepsGraphCall([tool, "deps-graph"], None),
              MakeCall([tool, "make", "-a", "-i", "-c", "a.txt"], Some("hello"), "make: a.txt"),
              MakeCall([tool, "make", "-a", "-i", "-c", "b.txt"], Some("hello"), "make: b.txt") ]
  {
    var tool := ToolPath(home);
    var calls := MakeCalls(tool, true, ["a.txt", "b.txt"], "hello");
    assert calls[0] == MakeCall([tool, "make", "-a", "-i", "-c", "a.txt"], Some("hello"), "make: a.txt");
    assert calls[1] == MakeCall([tool, "make", "-a", "-i", "-c", "b.txt"], Some("hello"), "make: b.txt");
  }
}
