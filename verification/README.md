# A Dafny model of the vscode-diff-test C++ test runner

The extension runs C++ unit tests from inside VS Code. It covers these steps:

- **Reading the test file.** A `.toml` file lists the tests: a `[config]` table names the executable and the `make` target, and one `[tests.<name>]` table describes each test. `parseTestsFile` checks the keys of both tables. It then scans the raw text for header lines and reports one test per header.
- **Building the catalog.** `TestFile.updateFromContents` folds those reports into a tree of test items. Each tree is stamped with a fresh generation number. The compiled `out/` version also nests tests under headings.
- **Running a case.** `TestCase.run` runs the test executable under `timeout --preserve-status`. It compares the output with a golden file `stdout/<name>` when one exists. It then runs the case again under valgrind when the settings ask for it. Each stage reports its verdict on the test run.
- **Running the shell.** `execShellCommand` wraps a command in the timeout and turns what `child_process.exec` hands back into `{passed, stdout, stderr, exitcode}`.
- **The C++ driver.** `generateDriver` (compiled version only) splices one `#include` per header and one `{ "name", name }` map entry per queued test into a built-in C++ template.
- **The run handler.** `discoverTests` walks the catalog depth first and enqueues the cases that are not excluded. Before walking a file that has not been read yet, it reads the file from disk. `runTestQueue` builds once with `make`. On failure it reports against the first queued case and ends the process. Otherwise it skips or starts every queued case in order, ends the run and calls `cleanup`. `updateNodeForDocument` and `getOrCreateFile` keep one top-level file item per open `.toml` document.

## The model

The model is written in a functional style. VS Code objects become immutable datatypes, and most effects become events in a trace (module `Trace`); the error messages the parser shows are returned as a list of diagnostics next to the trace:

- test-run calls;
- commands handed to the shell;
- deleted files;
- popups;
- the end of the process.

These outside calls become parameters:

- **`toml.parse`** is an `Option` of the parsed table (`None` when it throws).
- **`child_process.exec`** is a function from command to outcome.
- **The disk** is a function from path (or URI) to `Option` of text.
- **The `cpp-unit-test` settings** are a plain record.
- **Cancellation** is the queue position from which the token is set.

Where the TypeScript sources and their compiled twins under `out/` differ, a `Build` parameter selects the version. The differences are:

- the `TestCase` constructor;
- `onHeading`;
- `cleanup`;
- the executable name and the `make` target getters.

The modules follow the source files:

- `Parser`: `parser.ts`.
- `Catalog`: the tree-building half of `testTree.ts`.
- `Pipeline`: the running half of `testTree.ts`.
- `Shell` and `Driver`: `driverUtils.ts`.
- `Extension`: `extension.ts`.
- `JsStrings`, `Toml` and `Wrappers`: the JavaScript and TOML values the code works on.

The `gatherTestItems` helper copies a collection into an array. A sequence of items therefore stands for both the collection and the array.

The compiled `TestFile` accepts `onHeading` calls, but neither parser ever makes one. `Catalog.HeadingsNestInPreorder` proves the nesting for an arbitrary event stream. `Catalog.UpdateListsCases` covers the streams the parser does make, which hold only test calls.

`runTestQueue` runs each case with `TestCase.run` as written (`Pipeline.RunCaseAsWritten`, through `Extension.CaseRunner`). The corrected `run` of the first finding below (`Pipeline.RunCase`, through `Extension.CorrectedRunner`) can be put in its place: the facts about the queue loop are proved for any runner that neither starts nor skips a test, and `Extension.CaseRunUnmarked` shows that both are such runners.

## Model

| member | source | states |
|---|---|---|
| JsStrings.LeadingSpaces | src/parser.ts:4 | the `\s*` at the start of a line: every counted character is whitespace and the next one is not |
| JsStrings.TrailingSpaces | src/parser.ts:58 | the whitespace `trim()` removes from the end: all of it whitespace, and the character before it is not |
| JsStrings.TrimPadded | src/parser.ts:58 | `trim()` of text padded with whitespace on both sides, whose own ends are not whitespace, gives that text back |
| JsStrings.JsSlice | src/parser.ts:59 | `slice(start, end)` never lengthens its input, and with in-range indices it is exactly the sub-sequence |
| JsStrings.Split | src/parser.ts:53 | `split('\n')` gives at least one piece, and no piece holds the separator |
| JsStrings.JoinSplit | out/driverUtils.js:131 | joining the pieces of a split with the same separator gives the text back |
| JsStrings.SplitJoin | out/driverUtils.js:148 | splitting separator-free pieces joined with that separator gives the pieces back |
| JsStrings.JoinAppend | out/driverUtils.js:167-169 | joining two non-empty lists puts exactly one separator between their joins |
| JsStrings.JoinGlue | out/driverUtils.js:167-169 | concatenating two joined texts glues the last line of the first onto the first line of the second |
| Toml.Keys | src/parser.ts:17 | `Object.keys` of a table lists its keys in table order, one per entry |
| Toml.Lookup | src/parser.ts:24 | a key is found in a table exactly when it is one of the table's keys, and what is found is a value stored under that key |
| Parser.MissingConfigVars | src/parser.ts:23-27 | one error per required config key that is absent, and only for those, in the order `exec`, `ref_exec`, `build_target` |
| Parser.UnknownConfigVars | src/parser.ts:34-38 | one warning per config key outside the three known ones, and only for those, in the config's key order |
| Parser.KeysOutside | src/parser.ts:45-46 | the keys kept are exactly those outside the allowed list, in their original order |
| Parser.UnknownTestVarsExact | src/parser.ts:44-50 | a warning names (test, key) exactly when that test's table has that key and the key is not `argv`, `stdin_file` or `created_files` |
| Parser.ConfigDiagnostics | src/parser.ts:23-38 | the config diagnostics report exactly the missing and the unknown config keys and never a missing section |
| Parser.MatchHeaderSound | src/parser.ts:56 | what the header scan returns is a match of `^\s*\[tests\..*\]\s*` and starts with `[` after the indentation |
| Parser.MatchIsMaximal | src/parser.ts:4 | any way the pattern fits a line has the scan's indentation, ends its `.*` no later, and, at the same bracket, has a trailing run no longer |
| Parser.MatchHeaderIsGreedy | src/parser.ts:56 | `exec` finds no match exactly when the pattern cannot fit; otherwise its match is the greedy one, whose `.*` runs to the last `]` the line allows |
| Parser.Header | src/parser.ts:56-59 | a line yields a test exactly when it matches; the range length is the untrimmed match length, and the name is the text between `[tests.` and the closing bracket |
| Parser.HeaderName | src/parser.ts:58-59 | `trim().slice(7, -1)` of an indented, whitespace-padded `[tests.<name>]` gives `<name>` |
| Parser.Scan | src/parser.ts:54-62 | one `onTest` per matching line and no other: lines strictly increasing; range `(line, 0)`-`(line, match length)`; the name from the match; the dictionary `data['tests'][name]` |
| Parser.ParseTestsFile | src/parser.ts:13-64 | the call completes exactly when `toml.parse` succeeds, `[config]` is a table and `[tests]` exists; a call that throws reports no test; one that completes reports the scan of the `\n`-split text |
| Parser.ParseStopsWithoutConfig | src/parser.ts:16-24 | when the parse throws or `[config]` is not a table, the call throws before exporting or reporting any test; a missing `[config]` is the only popup |
| Parser.ParseReportsConfig | src/parser.ts:19-50 | once `[config]` is a table: its three variables are exported, and the last parse wins; missing and unknown config keys are reported exactly; a missing `[tests]` is reported exactly when absent; unknown test keys are reported exactly |
| Catalog.SettingOr | src/testTree.ts:98-102 | `testDict[key] ?? default` gives the default exactly when the key is absent, otherwise the stored value |
| Catalog.NewCase | src/testTree.ts:84-103 | the TypeScript constructor throws exactly when the test has no table; the compiled one never throws; a new case has the name as its label, the given generation, and `passed` false |
| Catalog.NewCaseDefaults | src/testTree.ts:98-102 | absent keys default to `[]`, `""`, `[]`, `true` and `""`; a present `run_valgrind` is taken as it is |
| Catalog.Ascend | out/testTree.js:48-55 | `ascend(d)` leaves `min(old, d)` frames, or throws for a negative depth; it keeps the lower frames and the tree they stand for; it assigns the root's children exactly when it pops the root |
| Catalog.AppendTop | out/testTree.js:59-65 | a case is attached to the innermost open group only; the frames below are untouched |
| Catalog.OpenFlat | out/testTree.js:78 | closing every open frame, as the final `ascend(0)` does, leaves the pre-order of labels unchanged |
| Catalog.FoldFlat | out/testTree.js:56-77 | while no handler throws, the open frames stand for exactly the labels of the calls so far, in call order |
| Catalog.HeadingOpensGroup | out/testTree.js:67-76 | a heading at depth `d`, with at least `d` frames open, keeps the `d` frames `ascend(d)` leaves and opens one empty frame of its own on top; that frame stands for the heading attached last to the group at depth `d` |
| Catalog.CaseFollowsHeading | out/testTree.js:59-76 | a case right after a heading at depth `d` becomes the heading's one child; the `d` frames below stay as `ascend(d)` left them |
| Catalog.HeadingsNestInPreorder | out/testTree.js:56-78 | the tree the final `ascend(0)` assigns to the file lists every heading and test label in call order, each heading before what is nested under it |
| Catalog.NewCases | src/testTree.ts:64-73 | one case item per test call, in order, with id `<file uri>/<name>`, or a throw exactly when one constructor throws |
| Catalog.FoldTests | src/testTree.ts:63-74 | test calls alone append one case per call to the root in call order, and throw exactly when a constructor throws |
| Catalog.UpdateFromContents | src/testTree.ts:46-77 | the generation counter moves on by one; the file is marked resolved and keeps its id, label and URI; the parse is `parseTestsFile` of the text; a parse that throws leaves the children alone |
| Catalog.UpdateListsCases | src/testTree.ts:46-77 | the children become exactly the parsed tests in document order, each a fresh leaf case with the file's URI, the header's range and the new generation; if the parse or a constructor throws, the old children stay |
| Shell.WrapCommand | src/driverUtils.ts:82-85 | a non-empty timeout prefixes `timeout --preserve-status <t> ` to the command, and otherwise the command is unchanged |
| Shell.Normalize | src/driverUtils.ts:93-107 | `passed` exactly when there was no error; stdout and stderr are copied through; the exit code is `'0'` on success, `error.code` when truthy, else `""` |
| Shell.ExecShellCommand | src/driverUtils.ts:76-110 | the command run is the wrapped one; the promise always resolves with that run's normalised outcome: `passed` exactly when no error came back, exit code `'0'` then, otherwise the error's code when truthy, else `""` |
| Shell.TimedOutIsFailure | src/driverUtils.ts:94-103 | a result carrying exit code 143 is a failed one, coming from an error with that code |
| Shell.ExecutableFileName | src/driverUtils.ts:45-47 | the TypeScript getter always gives `a.out`; the compiled one reads the `makefile` settings |
| Shell.MakefileTarget | src/driverUtils.ts:41-43 | the TypeScript getter always gives the empty target; the compiled one reads the `makefile` settings |
| Shell.Cleanup | out/driverUtils.js:173-183 | it only spawns commands and deletes files; `make clean` runs exactly when `runMakeCleanOnExit` is set, and runs last; files are deleted only by the compiled version, only when one of its two flags is set, the driver source first |
| Pipeline.ReportFail | src/testTree.ts:114-128 | the message is the stdout heading, stdout, the stderr heading, and then the timeout note when the exit code is 143, else stderr |
| Pipeline.DiffStage | src/testTree.ts:148-157 | exactly one diff failure when the golden file exists and differs from stdout, and nothing otherwise |
| Pipeline.MemcheckStage | src/testTree.ts:159-168 | valgrind is spawned exactly when enabled, and one failure with its report follows exactly when that run fails |
| Pipeline.CheckStages | src/testTree.ts:148-168 | after a passing main run, no failure exactly when the golden file agrees and valgrind is clean; at most two failures |
| Pipeline.RunCaseAsWritten | src/testTree.ts:130-177 | without a workspace only a popup; otherwise `passed` is reported exactly when the case's flag ends true; nothing but the flag changes; the trace holds only spawned commands, verdicts and popups |
| Pipeline.AsWrittenReportsStalePass | src/testTree.ts:145-176 | as written, a case that passed before and now fails its main run is reported failed and passed |
| Pipeline.AsWrittenAgreesOtherwise | src/testTree.ts:96 | for a fresh case, or a passing main run, the written and the corrected `run` agree |
| Pipeline.RunCase | src/testTree.ts:130-177 | the corrected `run` keeps the same trace shape, and its flag ends true exactly when `passed` is reported |
| Pipeline.PassedIffAllStagesPass | src/testTree.ts:145-176 | `passed` is reported exactly when the main run passed, the golden file is absent or equal, and valgrind is off or clean; exactly then nothing failed, and `passed` comes last |
| Pipeline.MainFailureStopsCase | src/testTree.ts:169-171 | a failing main run gives one failure with its report; nothing else runs |
| Pipeline.TwoFailuresPossible | src/testTree.ts:149-168 | a golden mismatch does not stop valgrind: both failures are reported, the diff first, and nothing passes |
| Driver.PairLines | out/driverUtils.js:134-136 | one `{ "name", name },` entry per queued test, in queue order |
| Driver.FirstWith | out/driverUtils.js:137 | the first `/`-separated piece containing `.h`, and none exactly when no piece contains it |
| Driver.Dedup | out/driverUtils.js:138-140 | the parent list holds each header of the queue exactly once and nothing else |
| Driver.DedupOrder | out/driverUtils.js:134-141 | the headers come in the order of their first occurrence in the queue |
| Driver.LastLineWith | out/driverUtils.js:142-147 | the index found is -1 or a line holding the pattern |
| Driver.LastLineWithIsLast | out/driverUtils.js:158-163 | no later line holds the pattern |
| Driver.Splice | out/driverUtils.js:158-166 | no driver (`null`) exactly when no template line holds the map opener |
| Driver.LinesJoin | out/driverUtils.js:152-154 | lines each ending in a newline, followed by joined lines, are the joined lines of both |
| Driver.IncludesUnbroken | out/driverUtils.js:152-154 | include lines for ids without newlines hold no newline |
| Driver.PairsUnbroken | out/driverUtils.js:134-136 | map entries for names without newlines hold no newline |
| Driver.LayoutKeeps | out/driverUtils.js:148-169 | the driver has the template lines before the marker, then one include line per header, then the template from the resume line on, with one line per pair spliced in after the map opener |
| Driver.AssembleLines | out/driverUtils.js:148-169 | the assembled text, split on newlines, is exactly that layout |
| Driver.AsWrittenDropsTemplateLines | out/driverUtils.js:167 | with two or more headers, the driver as written loses one template line per extra header; the line the corrected driver keeps after the includes is gone |
| Extension.LastSegment | src/extension.ts:111 | `split('/').pop()`: the end of the path after its last slash, holding no slash |
| Extension.FindTop | src/extension.ts:106 | the first top-level item with the id, and none exactly when no item has it |
| Extension.GetOrCreateFile | src/extension.ts:105-119 | an existing item with the URI's id is returned and nothing changes; otherwise exactly one new unresolved item is added at the end |
| Extension.GetOrCreateIsIdempotent | src/extension.ts:105-119 | asking again for the same URI finds what the first call left, so nothing is added twice |
| Extension.UpdateNodeForDocument | src/extension.ts:86-93 | a document that is not a `file:` `.toml` changes nothing and shows nothing; otherwise at most one item is added, and an item with the URI's id exists afterwards; any messages shown are the parser's for that text |
| Extension.DocumentUpdatesItsFile | src/extension.ts:86-93 | the document's own file item is resolved and re-parsed, and no other top-level item changes; the generation moves on by one; the exports are the parse's; the parser's messages are shown; ids stay distinct |
| Extension.UpdateFromDisk | src/testTree.ts:31-40 | the file's text, or `''` when unreadable, goes through `updateFromContents`; the item's error is set exactly when that throws |
| Extension.Enqueues | src/extension.ts:27 | one `enqueued` call per queued case, in queue order |
| Extension.DiscoverForest | src/extension.ts:19-36 | every queued entry is a case that is not excluded, paired with its own case, and announced by `enqueued` in queue order; items keep their ids; excluded items and cases are untouched; files not yet read end up resolved |
| Extension.DiscoverItem | src/extension.ts:22-35 | the same for one item of the loop |
| Extension.DiscoverQueuesCases | src/extension.ts:19-36 | whatever files it reads on the way, discovery queues exactly the pre-order list of cases outside excluded subtrees of the catalog it leaves behind |
| Extension.DiscoverItemQueuesCases | src/extension.ts:22-35 | the same for one item of the loop |
| Extension.DiscoverFindsCases | src/extension.ts:19-36 | with no file left to read, discovery queues exactly the pre-order list of cases outside excluded subtrees and changes nothing |
| Extension.CaseStep | src/extension.ts:55-64 | a cancelled case is skipped and keeps its state; otherwise it is started and takes the state its run leaves; exactly one start or skip per pass |
| Extension.RunCases | src/extension.ts:55-64 | the loop keeps every queued item, one per position |
| Extension.RunCasesStates | src/extension.ts:55-64 | each queued case ends with the state its own pass left |
| Extension.CaseRunUnmarked | src/testTree.ts:130-177 | one case's run, as written or corrected, never starts or skips a test itself; only the loop does |
| Extension.RunCasesInOrder | src/extension.ts:55-64 | every queued case is started or skipped exactly once, in queue order, and skipped exactly from the cancellation on |
| Extension.CancelledRunsNothing | src/extension.ts:57-58 | once cancellation is requested, the rest of the loop only writes output and skips |
| Extension.AfterBuild | src/extension.ts:39-66 | the build command is spawned first; a failed build prints `Compilation Failed` and changes no case |
| Extension.RunTestQueue | src/extension.ts:38-67 | without a workspace folder, a popup and exit 1; otherwise the `make <build target>` command is spawned first, a failed build is announced next and changes no case, and every queued case is kept |
| Extension.BuiltRunsInOrder | src/extension.ts:55-66 | after a successful build the cases are started or skipped in queue order; the run then ends and the cleanup steps follow |
| Extension.QueueRunsInOrder | src/extension.ts:38-67 | the same for `runTestQueue`, with `TestCase.run` as written and `cleanup` |
| Extension.FailedBuildReport | src/extension.ts:41-53 | a failed build starts no queued case: one failure on `queue[0]` carries the build's stderr, nothing passes, nothing is cleaned, the process exits with 1; an empty queue throws |
| Extension.FailedBuildRunsNothing | src/extension.ts:38-53 | the same for `runTestQueue` |
| Extension.Results | src/extension.ts:61 | every queued id maps to a case state, and the last queue entry with that id decides it |
| Extension.RestampItem | src/extension.ts:61 | a case the run touched takes its new state; id, label, URI, range and every other item stay |
| Extension.RestampKeepsTree | src/extension.ts:61 | writing the results back changes no label and no position in the tree |
| Extension.RunHandler | src/extension.ts:12-70 | the top-level items keep their ids and number; the generation counter never goes back |
| Extension.HandlerRunsCatalogInOrder | src/extension.ts:69 | for a fully read catalog without an include list: the cases are enqueued in document order, then the build runs, then each case is started in that same order; counter and exports are unchanged |

## Left out

- Parser.Header: the end of a header's range is the length of the matched text in Unicode code points, since strings are `seq<char>`. JavaScript's `length` counts UTF-16 code units, so for a header holding a character outside the Basic Multilingual Plane the model's range ends one column short per such character.
- `Extension.DiscoverForest`: the error messages the parser shows for a file read during discovery are not in the trace; `Extension.UpdateNodeForDocument` returns them for an open document.
- Wall-clock durations (`Date.now`) carry no information and are dropped from every report.
- VS Code objects are reduced to what the logic reads. A `TestItem` is an id, a label, a URI, a range, children, its `testData` entry and its error flag. A `TestMessage` is text or a diff. A `Location` is not recorded.
- `toml.parse` is an input. Floats and date-times are not modelled. Where `[config]` is an array, the model throws, but JavaScript's `in` would accept it.
- Parser.UnknownTestVarsExact: `Object.keys` of a string or an array is taken to be empty, where JavaScript lists its indices. So a `[tests]` entry whose value is a string or an array (`foo = "abc"`) gets no warnings in the model, where the code warns once per index (`unknown variable in [tests.foo]: 0`, and so on); the same holds for `tests` itself being a string or an array.
- The regular expression is modelled for the one pattern the parser uses. No general regex engine is modelled.
- `path.join` is plain concatenation with `/`, without normalisation. URIs are compared and printed by their text, without percent-encoding.
- The options object given to `exec` is not modelled: the exec function stands for the shell. Only the build passes `{ cwd: <workspace folder> }` (src/extension.ts:39); the test and valgrind runs pass `{}` (src/testTree.ts:142, 161) and `make clean` passes nothing (src/driverUtils.ts:71), so those run in the extension host's own working directory, which the model does not tell apart from the workspace folder.
- `Shell.Normalize`: the `error` object is reduced to its `code`. The `exitcode` type is modelled as number or string, following the callback, rather than as the declared string.
- `Shell.Cleanup`: a file is deleted when the setting says so, but the contract does not state the converse for the executable's path. That path can equal the driver's, so a deletion of it does not identify which flag caused it.
- Configuration reads and their `exit(1)` on an undefined section are not modelled. The settings record is always complete.
- `getCwdUri` without a workspace folder shows a popup and ends the process. This is modelled in `Extension.RunTestQueue`, but not inside `cleanup`, which only runs after a build in a workspace.
- The file-system watcher, `resolveHandler` and activation wiring (src/extension.ts:72-84, 95-102, 127-147) are event plumbing. They only call the modelled `getOrCreateFile`, `updateFromDisk` and `updateNodeForDocument`.
- `Pipeline.MainRun`: the command shapes (`<cwd>/<exe> <name>`, and `valgrind <flags> --error-exitcode=1 <cwd>/<exe> <name>` under `valgrindTimeoutTime`) are given by definition, not stated as contracts.
- `Extension.Results`: does not state that its keys are exactly the queued ids.
- `Extension.RunHandler`: with an `include` list, the catalog is left as it was, although JavaScript updates the included items in place. Items are identified by id, so exclusion compares ids rather than object identity, and duplicate ids are not told apart.
- `Extension.DiscoverForest`: below a file it has just read, discovery does not read further files. The parser only ever puts cases and headings there.
- Console logging is not modelled.
- Writing the driver file (`writeLocalFile`) is not modelled: the generated text is the result.
- The literal marker positions in the built-in template (the `#include "unit_tests.h"` line and the map opener) are not proved. The layout lemmas take the positions as hypotheses.
- Asynchronous sequencing is modelled as sequential calls. That is the order the awaited code runs in.
- The C++ programs under test are not part of this model.
- The reference-executable and `created_files` comparison modes are not implemented in the code, and so are not part of this model.

## Findings

| source | as written | input that shows it | evidently intended | confidence | as-written member | corrected member |
|---|---|---|---|---|---|---|
| src/testTree.ts:145-176 | `passed` is set only on the passing branch of the main run, so a failing main run leaves the value an earlier run left (also out/testTree.js:127-155) | run a case whose main run passes, then run the same case object again with a main run that fails: it is reported failed and then passed | the verdict depends on this run alone, with `passed` cleared when the main run fails | high, not executed | Pipeline.AsWrittenReportsStalePass | Pipeline.PassedIffAllStagesPass |
| out/driverUtils.js:167 | the template resumes at `insertLocation + parentFiles.length`, so every header after the first overwrites a template line after the marker | queue tests from three different headers: the driver loses the blank line and `typedef void (*FnPtr)();` after the marker, and the map no longer compiles | the include lines replace the marker line only | medium, not executed | Driver.AsWrittenDropsTemplateLines | Driver.LayoutKeeps |
