# sisho-idea: the `Make` action's invocation planner

The plugin adds a "Make" and a "Chain Make" action for the external `sisho`
build tool. When the user picks files and confirms a dialog of free-text
instructions, the action issues commands to the tool: in chain mode a
`deps-graph` refresh that runs to completion first, then one `make` per
selected file, each fed the instructions on standard input and each shown in
its own titled output panel.

This project models that planning as pure functions. The inputs are the
action event (project present, selected files as relative paths, menu text),
the dialog outcome, and the home directory. The output is the ordered list of
invocations. Each invocation has an argument vector, an optional standard
input, and its kind: the blocking refresh, or a make call with a panel title.
It also models the process lifecycle the task drives (spawn, and wait only
for the refresh) and the fold that turns the refresh's output lines into the
captured string.

Modules:
- `Wrappers`: `Option`, standing in for Kotlin's nullable types.
- `Commands`: the tool path, the two argument vectors, a parser that reads a
  make argument vector back, and the panel title.
- `Capture`: the line-accumulation loop of the blocking runner, with a
  reference `'\n'` reader as its inverse.
- `Planner`: the action, the background task and the per-file loop.
- `Schedule`: the spawn/exit steps the task takes for a plan.

Every make call passes `-a -i` before the optional `-c` (Make.kt:75), so the
argument vector has six elements in chain mode and five otherwise.

## Model

| member | source | states |
|---|---|---|
| Commands.ToolPath | src/main/kotlin/com/github/tkuni/sishoidea/Make.kt:163-166 | the tool path is the home directory followed by `/go/bin/sisho` |
| Commands.ToolPathInjective | src/main/kotlin/com/github/tkuni/sishoidea/Make.kt:163-166 | different home directories never give the same tool path |
| Commands.DepsGraphArgv | src/main/kotlin/com/github/tkuni/sishoidea/Make.kt:68 | the refresh's argument vector is exactly the tool path then `deps-graph` |
| Commands.MakeArgv | src/main/kotlin/com/github/tkuni/sishoidea/Make.kt:75-79 | a make argument vector starts with tool, `make`, `-a`, `-i`; has `-c` at position 4 in chain mode; ends with the target; has length 6 in chain mode and 5 otherwise |
| Commands.ParseMakeArgv | src/main/kotlin/com/github/tkuni/sishoidea/Make.kt:75-79 | reading an argument vector back: any result it returns rebuilds that exact vector, and it returns nothing only for vectors the builder can never produce |
| Commands.ParseMakeArgvRoundTrip | src/main/kotlin/com/github/tkuni/sishoidea/Make.kt:75-79 | building a make argument vector and reading it back recovers the tool, the chain flag and the target |
| Commands.ContentTitle | src/main/kotlin/com/github/tkuni/sishoidea/Make.kt:142-146 | the panel title is the second argument, then `: `, then the last argument; it needs at least two arguments |
| Commands.MakeTitle | src/main/kotlin/com/github/tkuni/sishoidea/Make.kt:142-146 | every make panel is titled `make: ` followed by the target, whatever the tool path and chain flag |
| Commands.MakeTitleInjective | src/main/kotlin/com/github/tkuni/sishoidea/Make.kt:142-146 | two make panels have the same title if and only if they have the same target |
| Capture.JoinedSnoc | src/main/kotlin/com/github/tkuni/sishoidea/Make.kt:98-99 | reading one more line appends that line and a newline to the captured output |
| Capture.JoinedLength | src/main/kotlin/com/github/tkuni/sishoidea/Make.kt:95-101 | the captured output's length is the sum over lines of the line length plus one |
| Capture.CaptureOutput | src/main/kotlin/com/github/tkuni/sishoidea/Make.kt:95-104 | the loop's result is the lines in read order, each followed by a newline, and its length is the sum of line lengths plus one per line |
| Capture.ReadLinesAreLines | src/main/kotlin/com/github/tkuni/sishoidea/Make.kt:96-98 | the reference line reader never hands out a line that contains a newline |
| Capture.ReadLinesOfJoined | src/main/kotlin/com/github/tkuni/sishoidea/Make.kt:95-101 | splitting the captured output at newlines gives back exactly the lines that were read |
| Capture.JoinedOfReadLines | src/main/kotlin/com/github/tkuni/sishoidea/Make.kt:95-101 | capturing what a reader reads reproduces the text, plus a newline unless it is empty or already ends in one |
| Planner.DepsGraphInvocation | src/main/kotlin/com/github/tkuni/sishoidea/Make.kt:66-69 | the refresh is a blocking call with argument vector `[tool, deps-graph]` and no standard input |
| Planner.MakeInvocation | src/main/kotlin/com/github/tkuni/sishoidea/Make.kt:74-80 | a make call's argument vector reads back as its tool, mode and target; its standard input is the dialog text; its title is `make: ` followed by the target |
| Planner.MakeCalls | src/main/kotlin/com/github/tkuni/sishoidea/Make.kt:71-82 | the per-file loop issues exactly one make call per file, the k-th for the k-th file |
| Planner.MakeCallsHaveNoDepsGraph | src/main/kotlin/com/github/tkuni/sishoidea/Make.kt:71-82 | the per-file loop never issues a refresh |
| Planner.MakeCallsTargets | src/main/kotlin/com/github/tkuni/sishoidea/Make.kt:71-82 | the targets of the per-file loop's calls, in order, are the selected files |
| Planner.RunPlan | src/main/kotlin/com/github/tkuni/sishoidea/Make.kt:33-39 | the task issues the refresh first exactly in chain mode, then the make calls; the total is the file count plus one in chain mode |
| Planner.Plan | src/main/kotlin/com/github/tkuni/sishoidea/Make.kt:22-41 | without a project, without a selection, or with the dialog dismissed, nothing is issued |
| Planner.CancelledIssuesNothing | src/main/kotlin/com/github/tkuni/sishoidea/Make.kt:27-28 | a dismissed dialog issues no command |
| Planner.DepsGraphOnlyInChainMode | src/main/kotlin/com/github/tkuni/sishoidea/Make.kt:34-36 | a plan holds exactly one refresh when the action proceeds in chain mode and none otherwise; in chain mode it is the first command, `[tool, deps-graph]` with no standard input |
| Planner.MakesFollowSelection | src/main/kotlin/com/github/tkuni/sishoidea/Make.kt:72-81 | the make calls' targets are the selected files in selection order, so there are as many make calls as files |
| Planner.MakeCallShape | src/main/kotlin/com/github/tkuni/sishoidea/Make.kt:72-81 | every make call in a plan is exactly the make argument vector for its file: the fixed prefix, `-c` at position 4 in chain mode, its file last, length 6 or 5, the dialog text unchanged as standard input, and the title `make: ` plus its file |
| Planner.PlanAfterRefreshIsMakes | src/main/kotlin/com/github/tkuni/sishoidea/Make.kt:34-38 | a plan opens with the refresh exactly when the action proceeds in chain mode, and every command after that opening is a make call |
| Planner.MenuTextSelectsMode | src/main/kotlin/com/github/tkuni/sishoidea/Make.kt:25 | `IsChainMake`: only the exact menu text `Chain Make` selects chain mode; a refresh is issued, and make calls have six arguments, if and only if the text is `Chain Make` |
| Planner.ChainExample | src/main/kotlin/com/github/tkuni/sishoidea/Make.kt:25-81 | "Chain Make" on `a.txt`, `b.txt` with text `hello` issues the refresh, then `make -a -i -c a.txt` and `make -a -i -c b.txt`, both fed `hello` and titled `make: a.txt` and `make: b.txt` |
| Schedule.StepEvents | src/main/kotlin/com/github/tkuni/sishoidea/Make.kt:84-112 | every invocation is spawned first; only the blocking refresh runner (start, then `waitFor`) adds an exit step, and the streaming make runner does not |
| Schedule.Events | src/main/kotlin/com/github/tkuni/sishoidea/Make.kt:33-39 | every invocation of the plan is spawned, every exit the task awaits is a refresh's, and the number of steps lies between the plan's length and twice it, each naming an invocation of the plan |
| Schedule.EventsShape | src/main/kotlin/com/github/tkuni/sishoidea/Make.kt:84-112 | for any plan of that shape (refresh first exactly in chain mode, then make calls), invocations are spawned in order and only the opening refresh is awaited, before anything else is spawned |
| Schedule.DepsGraphAwaitedBeforeMakes | src/main/kotlin/com/github/tkuni/sishoidea/Make.kt:34-38 | in chain mode the refresh is spawned and has exited before the first make is spawned; make calls are spawned in plan order and never awaited by the task |

## Left out

- Process spawning, writing standard input, reading standard output and `waitFor` (Make.kt:84-140): operating-system I/O. The blocking runner's output lines are an input to `Capture.CaptureOutput`. `Schedule` keeps only the order of spawn and exit steps.
- The reference reader `Capture.ReadLines` splits only at `'\n'`. The Java reader also ends lines at `'\r'` and `"\r\n"`, and that library behaviour is not visible here. `ReadLines` is the inverse of the fold in `ReadLinesOfJoined` and `JoinedOfReadLines`, not a model of the library reader.
- The refresh's captured output is returned and then discarded by `updateDependencyGraph` (Make.kt:68). The plan does not carry it.
- Threads, `invokeLater`, `SwingUtilities` and the background `Task` (Make.kt:32-40, 114-138): concurrency and UI marshaling. Only issue order is modelled. The order in which make processes finish is not, because the task never waits for them.
- The instructions dialog, the tool-window registration and the text-area appends (Make.kt:43-64, 115-122, 152-161): Swing and IDE UI. The dialog is only "dismissed" or "accepted with text".
- Progress-indicator texts (Make.kt:67, 73): the indicator is only written to. The file name shown there is not modelled.
- `getRelativePath` (Make.kt:148-150) delegates to `URI.relativize`, a library call whose behaviour is not visible. Each selected file's relative path is an opaque input string.
- `System.getProperty("user.home")` (Make.kt:164): the home directory is an input.
- Exit codes and cancellation: the code never inspects an exit code and only writes to the progress indicator, so the model has neither.
- Spawn failures: the plan assumes every process starts. In the code a failed `ProcessBuilder.start()` (Make.kt:89, 112), for instance when the tool is not installed, throws out of the background task (Make.kt:33-39), and no later command is issued. The model does not describe that truncated run.
- MyShellAction.kt: it runs a hard-coded `echo` and shows a message dialog. That is I/O and UI with no planning logic.
