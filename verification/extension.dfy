/** The extension's entry points in src/extension.ts and its compiled twin out/extension.js: the
    catalog of `.toml` test files kept in step with open documents, and the run handler, which
    discovers the cases to run, builds the project once and runs the cases in order. The
    `gatherTestItems` helper only copies a collection into an array, so a forest stands for both. */
module Extension {
  import opened Wrappers
  import opened JsStrings
  import opened Toml
  import opened Parser
  import opened Catalog
  import opened Trace
  import opened Shell
  import opened Pipeline

  /** What the extension keeps between calls: the controller's top-level items, the module-level
      generation counter of the catalog, and the parser's module-level exports. */
  datatype State = State(items: seq<Item>, counter: nat, exports: Exports)

  /** The file system and the TOML library as the catalog sees them: `read` gives a file's text
      (`None`: the read failed), `parse` what `toml.parse` makes of a text (`None`: it threw). */
  datatype World = World(read: Uri -> Option<string>, parse: string -> Option<Entries>)

  /** `path.split('/').pop()`: the part of the path after its last slash. */
  function LastSegment(path: string): (r: string)
    ensures '/' !in r
    ensures |r| <= |path| && path[|path| - |r|..] == r
    ensures |r| < |path| ==> path[|path| - |r| - 1] == '/'
  {
    var parts := Split(path, '/');
    var n := |parts|;
    JoinSplit(path, '/');
    if n == 1 then parts[0]
    else
      assert parts == parts[..n - 1] + [parts[n - 1]];
      JoinAppend(parts[..n - 1], [parts[n - 1]], '/');
      parts[n - 1]
  }

  /** The result of `getOrCreateFile`: the top-level items after the call and where the file is. */
  datatype Got = Got(items: seq<Item>, index: nat)

  /** The first top-level item whose id is `id`, if any. */
  function FindTop(items: seq<Item>, id: string): (r: Option<nat>)
    ensures r.None? <==> forall j :: 0 <= j < |items| ==> items[j].id != id
    ensures r.Some? ==> r.value < |items| && items[r.value].id == id
    ensures r.Some? ==> forall j :: 0 <= j < r.value ==> items[j].id != id
    decreases |items|
  {
    if |items| == 0 then None
    else if items[0].id == id then Some(0)
    else
      var rest := FindTop(items[1..], id);
      assert forall j :: 0 < j < |items| ==> items[1..][j - 1] == items[j];
      if rest.None? then None else Some(rest.value + 1)
  }

  /** The item `getOrCreateFile` makes for a document it has not seen: id the URI's text, label the
      last path segment, children resolvable, not yet resolved. */
  function NewFileItem(uri: Uri): Item {
    Item(uri.text, LastSegment(uri.path), uri, None, true, false, FileData(false), [])
  }

  /** `getOrCreateFile(controller, uri)`: the top-level item with the URI's text as its id, or a new
      unresolved file item added after the others. */
  function GetOrCreateFile(items: seq<Item>, uri: Uri): (r: Got)
    ensures r.index < |r.items| && r.items[r.index].id == uri.text
    ensures (exists j :: 0 <= j < |items| && items[j].id == uri.text) ==> r.items == items
    ensures (forall j :: 0 <= j < |items| && items[j].id == uri.text ==> r.index <= j)
    ensures (forall j :: 0 <= j < |items| ==> items[j].id != uri.text) ==>
      r.items == items + [NewFileItem(uri)] && r.index == |items|
  {
    match FindTop(items, uri.text)
    case Some(i) => Got(items, i)
    case None => Got(items + [NewFileItem(uri)], |items|)
  }

  /** Asking again for the same URI finds what the first call left: nothing is added twice. */
  lemma GetOrCreateIsIdempotent(items: seq<Item>, uri: Uri)
    ensures var g := GetOrCreateFile(items, uri);
      GetOrCreateFile(g.items, uri) == g
  {
    var g := GetOrCreateFile(items, uri);
    var h := GetOrCreateFile(g.items, uri);
    assert h.items == g.items;
  }

  /** No two top-level items share an id. */
  predicate DistinctIds(items: seq<Item>) {
    forall i, j :: 0 <= i < j < |items| ==> items[i].id != items[j].id
  }

  /** `updateNodeForDocument` reacts only to files whose path contains `.toml`. */
  predicate IsTestDocument(uri: Uri) {
    uri.scheme == "file" && Contains(uri.path, ".toml")
  }

  /** The top-level items with the one at `i` replaced. */
  function Put(items: seq<Item>, i: nat, item: Item): (r: seq<Item>)
    requires i < |items|
    ensures |r| == |items| && r[i] == item
    ensures forall j :: 0 <= j < |items| && j != i ==> r[j] == items[j]
  {
    items[i := item]
  }

  /** The state after a call, whether the call threw, and the error messages the parser showed. */
  datatype Touched = Touched(st: State, threw: bool, popups: seq<Diagnostic>)

  /** `updateNodeForDocument(document)`, for a document at `uri` holding `text` that `toml.parse`
      turns into `parsed`. An existing top-level item that is not a file has no
      `updateFromContents`, so the call throws. */
  function UpdateNodeForDocument(build: Build, st: State, uri: Uri, text: string, parsed: Option<Entries>): (r: Touched)
    ensures !IsTestDocument(uri) ==> r == Touched(st, false, [])
    ensures r.popups != [] ==> IsTestDocument(uri) && r.popups == ParseTestsFile(text, parsed, st.exports).diagnostics
    ensures IsTestDocument(uri) ==> |st.items| <= |r.st.items| <= |st.items| + 1
    ensures IsTestDocument(uri) ==> exists i :: 0 <= i < |r.st.items| && r.st.items[i].id == uri.text
  {
    if !IsTestDocument(uri) then Touched(st, false, [])
    else
      var g := GetOrCreateFile(st.items, uri);
      var file := g.items[g.index];
      if !file.data.FileData? then Touched(st, true, [])
      else
        var u := UpdateFromContents(build, st.counter, file, text, parsed, st.exports);
        Touched(State(Put(g.items, g.index, u.file), u.counter, u.parse.exports), u.threw, u.parse.diagnostics)
  }

  /** A test document is parsed into the one top-level file item with its URI as id, created if
      need be: the generation moves on by one, the file ends up resolved, the parser's exports are
      the parse's, the parser's messages are shown, and every other top-level item is left as it
      was. Ids stay distinct. */
  lemma DocumentUpdatesItsFile(build: Build, st: State, uri: Uri, text: string, parsed: Option<Entries>)
    requires IsTestDocument(uri) && DistinctIds(st.items)
    requires forall j :: 0 <= j < |st.items| ==> st.items[j].data.FileData?
    ensures var r := UpdateNodeForDocument(build, st, uri, text, parsed);
      var i := GetOrCreateFile(st.items, uri).index;
      && DistinctIds(r.st.items)
      && i < |r.st.items| && r.st.items[i].id == uri.text && r.st.items[i].data == FileData(true)
      && r.st.counter == st.counter + 1
      && r.st.exports == ParseTestsFile(text, parsed, st.exports).exports
      && r.popups == ParseTestsFile(text, parsed, st.exports).diagnostics
      && (forall j :: 0 <= j < |st.items| && j != i ==> r.st.items[j] == st.items[j])
      && (forall j :: 0 <= j < |r.st.items| ==> r.st.items[j].data.FileData?)
  {
    var g := GetOrCreateFile(st.items, uri);
    if g.items != st.items {
      assert forall j :: 0 <= j < |st.items| ==> g.items[j] == st.items[j];
    }
  }

  /** `updateFromDisk(controller, item)`: the file's text, or `''` when it cannot be read, goes
      through `updateFromContents`; the item's error is cleared first and set when that throws. */
  function UpdateFromDisk(build: Build, w: World, counter: nat, file: Item, exports: Exports): (r: Update)
    ensures r.counter == counter + 1
    ensures r.file.data == FileData(true)
    ensures r.file.id == file.id && r.file.name == file.name && r.file.uri == file.uri
    ensures r.file.error <==> r.threw
    ensures r.parse == ParseTestsFile(w.read(file.uri).GetOr(""), w.parse(w.read(file.uri).GetOr("")), exports)
  {
    var text := w.read(file.uri).GetOr("");
    var u := UpdateFromContents(build, counter, file.(error := false), text, w.parse(text), exports);
    u.(file := u.file.(error := u.threw))
  }

  /** What visiting one item leaves: the item, the cases queued, the trace, the counter, the exports. */
  datatype Visited = Visited(item: Item, queue: seq<Queued>, trace: seq<Event>, counter: nat, exports: Exports)

  /** What visiting a forest leaves. */
  datatype Found = Found(items: seq<Item>, queue: seq<Queued>, trace: seq<Event>, counter: nat, exports: Exports)

  /** `run.enqueued` for each queued case, in order. */
  function Enqueues(queue: seq<Queued>): (r: seq<Event>)
    ensures |r| == |queue|
    ensures forall k :: 0 <= k < |queue| ==> r[k] == Enqueued(queue[k].test.id)
  {
    seq(|queue|, k requires 0 <= k < |queue| => Enqueued(queue[k].test.id))
  }

  lemma EnqueuesAppend(a: seq<Queued>, b: seq<Queued>)
    ensures Enqueues(a + b) == Enqueues(a) + Enqueues(b)
  {
    assert forall k :: |a| <= k < |a| + |b| ==> (a + b)[k] == b[k - |a|];
  }

  /** How discovery may change one item: id, label and URI stay; an excluded item or a case is
      left alone; a heading keeps its data; a file that is not excluded ends up resolved when
      files are being resolved. */
  predicate Revisited(resolve: bool, exclude: seq<string>, before: Item, after: Item) {
    && after.id == before.id && after.name == before.name && after.uri == before.uri
    && (before.id in exclude || before.data.CaseData? ==> after == before)
    && (!before.data.FileData? ==> after.data == before.data)
    && (before.data == FileData(true) ==> after.data == before.data)
    && (resolve && before.id !in exclude && before.data.FileData? ==> after.data == FileData(true))
  }

  /** A queued entry is a case item that is not excluded, paired with its own case. */
  predicate Runnable(exclude: seq<string>, q: Queued) {
    q.test.data == CaseData(q.tc) && q.test.id !in exclude
  }

  /** `discoverTests(tests)`: excluded items and their subtrees are passed over, cases are
      enqueued, every other item is descended into, an unresolved file after it has been read from
      disk. With `resolve` false no file is read; below a file just read the parser only ever puts
      cases and headings, so discovery goes on there with `resolve` false. */
  function DiscoverForest(build: Build, w: World, exclude: seq<string>, items: seq<Item>,
                          counter: nat, exports: Exports, resolve: bool): (r: Found)
    ensures |r.items| == |items|
    ensures forall i :: 0 <= i < |items| ==> Revisited(resolve, exclude, items[i], r.items[i])
    ensures r.trace == Enqueues(r.queue)
    ensures forall k :: 0 <= k < |r.queue| ==> Runnable(exclude, r.queue[k])
    ensures r.counter >= counter
    decreases resolve, items, 0
  {
    if |items| == 0 then Found([], [], [], counter, exports)
    else
      var h := DiscoverItem(build, w, exclude, items[0], counter, exports, resolve);
      var t := DiscoverForest(build, w, exclude, items[1..], h.counter, h.exports, resolve);
      var r := Found([h.item] + t.items, h.queue + t.queue, h.trace + t.trace, t.counter, t.exports);
      EnqueuesAppend(h.queue, t.queue);
      assert forall i :: 1 <= i < |items| ==> items[i] == items[1..][i - 1] && r.items[i] == t.items[i - 1];
      assert forall k :: |h.queue| <= k < |r.queue| ==> r.queue[k] == t.queue[k - |h.queue|];
      r
  }

  /** One item of `discoverTests`' loop. */
  function DiscoverItem(build: Build, w: World, exclude: seq<string>, item: Item,
                        counter: nat, exports: Exports, resolve: bool): (r: Visited)
    ensures Revisited(resolve, exclude, item, r.item)
    ensures r.trace == Enqueues(r.queue)
    ensures forall k :: 0 <= k < |r.queue| ==> Runnable(exclude, r.queue[k])
    ensures r.counter >= counter
    decreases resolve, item, 1
  {
    if item.id in exclude then Visited(item, [], [], counter, exports)
    else if item.data.CaseData? then
      Visited(item, [Queued(item, item.data.tc)], [Enqueued(item.id)], counter, exports)
    else if resolve && item.data == FileData(false) then
      var u := UpdateFromDisk(build, w, counter, item, exports);
      var f := DiscoverForest(build, w, exclude, u.file.children, u.counter, u.parse.exports, false);
      Visited(u.file.(children := f.items), f.queue, f.trace, f.counter, f.exports)
    else
      var f := DiscoverForest(build, w, exclude, item.children, counter, exports, resolve);
      Visited(item.(children := f.items), f.queue, f.trace, f.counter, f.exports)
  }

  /** The cases of a forest that are not excluded, in document order: each item before its
      children, siblings in order, nothing below an excluded item or a case. */
  function Cases(items: seq<Item>, exclude: seq<string>): seq<Queued>
    decreases items, 0
  {
    if |items| == 0 then [] else CasesOf(items[0], exclude) + Cases(items[1..], exclude)
  }

  function CasesOf(item: Item, exclude: seq<string>): seq<Queued>
    decreases item, 1
  {
    if item.id in exclude then []
    else if item.data.CaseData? then [Queued(item, item.data.tc)]
    else Cases(item.children, exclude)
  }

  /** No file anywhere in the forest is waiting to be read. */
  predicate Settled(items: seq<Item>)
    decreases items, 0
  {
    forall i :: 0 <= i < |items| ==> SettledItem(items[i])
  }

  predicate SettledItem(item: Item)
    decreases item, 1
  {
    item.data != FileData(false) && Settled(item.children)
  }

  /** When there is nothing to read, discovery is a pure walk: it queues exactly the reference
      list of cases, changes no item, and leaves the counter and the exports alone. */
  lemma {:induction false} DiscoverFindsCases(build: Build, w: World, exclude: seq<string>, items: seq<Item>,
                                              counter: nat, exports: Exports, resolve: bool)
    requires resolve ==> Settled(items)
    ensures var r := DiscoverForest(build, w, exclude, items, counter, exports, resolve);
      r.queue == Cases(items, exclude) && r.items == items && r.counter == counter && r.exports == exports
    decreases resolve, items, 0
  {
    if |items| > 0 {
      DiscoverItemFindsCases(build, w, exclude, items[0], counter, exports, resolve);
      DiscoverFindsCases(build, w, exclude, items[1..], counter, exports, resolve);
      assert [items[0]] + items[1..] == items;
    }
  }

  lemma {:induction false} DiscoverItemFindsCases(build: Build, w: World, exclude: seq<string>, item: Item,
                                                  counter: nat, exports: Exports, resolve: bool)
    requires resolve ==> SettledItem(item)
    ensures var r := DiscoverItem(build, w, exclude, item, counter, exports, resolve);
      r.queue == CasesOf(item, exclude) && r.item == item && r.counter == counter && r.exports == exports
    decreases resolve, item, 1
  {
    if item.id !in exclude && !item.data.CaseData? {
      DiscoverFindsCases(build, w, exclude, item.children, counter, exports, resolve);
    }
  }

  /** Whatever files it reads on the way, discovery queues exactly the reference list of cases of
      the forest it leaves behind: the cases not excluded, in document order. */
  lemma {:induction false} DiscoverQueuesCases(build: Build, w: World, exclude: seq<string>, items: seq<Item>,
                                               counter: nat, exports: Exports, resolve: bool)
    ensures var r := DiscoverForest(build, w, exclude, items, counter, exports, resolve);
      r.queue == Cases(r.items, exclude)
    decreases resolve, items, 0
  {
    if |items| > 0 {
      var h := DiscoverItem(build, w, exclude, items[0], counter, exports, resolve);
      var t := DiscoverForest(build, w, exclude, items[1..], h.counter, h.exports, resolve);
      DiscoverItemQueuesCases(build, w, exclude, items[0], counter, exports, resolve);
      DiscoverQueuesCases(build, w, exclude, items[1..], h.counter, h.exports, resolve);
      var ri := [h.item] + t.items;
      assert ri[0] == h.item && ri[1..] == t.items;
    }
  }

  lemma {:induction false} DiscoverItemQueuesCases(build: Build, w: World, exclude: seq<string>, item: Item,
                                                   counter: nat, exports: Exports, resolve: bool)
    ensures var r := DiscoverItem(build, w, exclude, item, counter, exports, resolve);
      r.queue == CasesOf(r.item, exclude)
    decreases resolve, item, 1
  {
    if item.id in exclude || item.data.CaseData? {
    } else if resolve && item.data == FileData(false) {
      var u := UpdateFromDisk(build, w, counter, item, exports);
      DiscoverQueuesCases(build, w, exclude, u.file.children, u.counter, u.parse.exports, false);
    } else {
      DiscoverQueuesCases(build, w, exclude, item.children, counter, exports, resolve);
    }
  }

  /** Whether the cancellation token is set by the time the case at `index` comes up: once set it
      stays set, from the case `from` on. */
  predicate Cancelled(cancelFrom: Option<nat>, index: nat) {
    cancelFrom.Some? && cancelFrom.value <= index
  }

  /** The trace and the queue, each case's state as its run left it. */
  datatype QueueRun = QueueRun(events: seq<Event>, queue: seq<Queued>)

  /** What `data.run(test, run)` does for a case under a given id: the trace it adds and the
      case as it leaves it. */
  type Runner = (TestCase, string) -> CaseRun

  /** The runner of `runTestQueue`'s loop: `TestCase.run`, as written, on the machine `m`. */
  function CaseRunner(build: Build, m: Machine): Runner {
    (tc: TestCase, id: string) => RunCaseAsWritten(build, m, tc, id)
  }

  /** The same loop's runner with the corrected `run`, which clears a stale verdict. */
  function CorrectedRunner(build: Build, m: Machine): Runner {
    (tc: TestCase, id: string) => RunCase(build, m, tc, id)
  }

  /** A runner that itself never starts or skips a test. */
  ghost predicate Unmarked(run: Runner) {
    forall tc: TestCase, id: string :: Marks(run(tc, id).events) == []
  }

  /** One pass of `runTestQueue`'s loop, for the case at position `index`: it is announced,
      skipped when cancellation has been requested or else started and run, and closed. Unless
      the runner does so itself, it makes exactly one call that starts or skips a test. */
  function CaseStep(run: Runner, q: Queued, index: nat, cancelFrom: Option<nat>): (r: CaseRun)
    ensures Cancelled(cancelFrom, index) ==> r.tc == q.tc
    ensures !Cancelled(cancelFrom, index) ==> r.tc == run(q.tc, q.test.id).tc
    ensures Unmarked(run) ==>
      Marks(r.events) == [if Cancelled(cancelFrom, index) then Skipped(q.test.id) else Started(q.test.id)]
  {
    var id := q.test.id;
    var ran := run(q.tc, id);
    var body := if Cancelled(cancelFrom, index) then [Skipped(id)] else [Started(id)] + ran.events;
    var events := [Output("Running " + id + "\r\n")] + body + [Output("Completed " + id + "\r\n")];
    MarksAppend([Started(id)], ran.events);
    MarksAppend([Output("Running " + id + "\r\n")], body);
    MarksAppend([Output("Running " + id + "\r\n")] + body, [Output("Completed " + id + "\r\n")]);
    CaseRun(events, if Cancelled(cancelFrom, index) then q.tc else ran.tc)
  }

  /** The loop of `runTestQueue` over the queue from position `start` on. */
  function RunCases(run: Runner, queue: seq<Queued>, start: nat, cancelFrom: Option<nat>): (r: QueueRun)
    ensures |r.queue| == |queue|
    ensures forall i :: 0 <= i < |queue| ==> r.queue[i].test == queue[i].test
    decreases |queue|
  {
    if |queue| == 0 then QueueRun([], [])
    else
      var step := CaseStep(run, queue[0], start, cancelFrom);
      var rest := RunCases(run, queue[1..], start + 1, cancelFrom);
      var r := QueueRun(step.events + rest.events, [queue[0].(tc := step.tc)] + rest.queue);
      assert forall i :: 1 <= i < |queue| ==> queue[i] == queue[1..][i - 1] && r.queue[i] == rest.queue[i - 1];
      r
  }

  /** Each queued case comes out of the loop with the state its own pass left: a skipped case
      keeps its state, every other one gets the state its run left. */
  lemma {:induction false} RunCasesStates(run: Runner, queue: seq<Queued>, start: nat, cancelFrom: Option<nat>)
    ensures var r := RunCases(run, queue, start, cancelFrom);
      && (forall i :: 0 <= i < |queue| && Cancelled(cancelFrom, start + i) ==> r.queue[i] == queue[i])
      && (forall i :: 0 <= i < |queue| && !Cancelled(cancelFrom, start + i) ==>
            r.queue[i] == queue[i].(tc := run(queue[i].tc, queue[i].test.id).tc))
    decreases |queue|
  {
    if |queue| > 0 {
      RunCasesStates(run, queue[1..], start + 1, cancelFrom);
      var r := RunCases(run, queue, start, cancelFrom);
      var rest := RunCases(run, queue[1..], start + 1, cancelFrom);
      assert forall i :: 1 <= i < |queue| ==> queue[i] == queue[1..][i - 1] && r.queue[i] == rest.queue[i - 1];
    }
  }

  /** The `make` command `runTestQueue` builds with: the parser's exported build target, as
      JavaScript turns it into text. */
  function MakeCommand(exports: Exports): string {
    "make " + JsText(exports.buildTarget)
  }

  const CompilationFailed: string := "Compilation Failed\r\n"

  /** The popup `getCwdUri` shows before it ends the process when no folder is open. */
  const NoWorkspacePopup: string := "No folder or workspace opened!"

  /** `runTestQueue()` once the build command `made` has come back: a failed build is reported
      against the first queued case and the process ends, and with an empty queue the access to
      `queue[0]` throws; after a successful build the loop runs the queue with `run`, the run
      ends and the `clean` steps follow. */
  function AfterBuild(made: Invocation, run: Runner, clean: seq<Event>, queue: seq<Queued>, cancelFrom: Option<nat>): (r: QueueRun)
    ensures |r.events| >= 2 && r.events[0] == Spawned(made.command)
    ensures !made.result.passed ==> r.events[1] == Output(CompilationFailed) && r.queue == queue
    ensures |r.queue| == |queue|
  {
    if !made.result.passed then
      var report :=
        if |queue| == 0 then [Crash]
        else [Started(queue[0].test.uri.text + "/data.getLabel()"), Failed(queue[0].test.id, Text(made.result.stderr)), Ended, Exit(1)];
      QueueRun([Spawned(made.command), Output(CompilationFailed)] + report, queue)
    else
      var cases := RunCases(run, queue, 0, cancelFrom);
      QueueRun([Spawned(made.command)] + cases.events + [Ended] + clean, cases.queue)
  }

  /** `runTestQueue()`, with the parser's exports as discovery left them and the cancellation
      token set from `cancelFrom` on. Without a workspace folder it shows a popup and ends the
      process; otherwise it builds there, without a timeout, runs the cases with `TestCase.run`
      and cleans up. */
  function RunTestQueue(build: Build, m: Machine, exports: Exports, queue: seq<Queued>, cancelFrom: Option<nat>): (r: QueueRun)
    ensures m.workspace.None? ==> r == QueueRun([InfoPopup(NoWorkspacePopup), Exit(1)], queue)
    ensures m.workspace.Some? ==> |r.events| >= 2 && r.events[0] == Spawned(MakeCommand(exports))
    ensures m.workspace.Some? && !ExecShellCommand(MakeCommand(exports), None, m.exec).result.passed ==>
      r.events[1] == Output(CompilationFailed) && r.queue == queue
    ensures |r.queue| == |queue|
  {
    match m.workspace
    case None => QueueRun([InfoPopup(NoWorkspacePopup), Exit(1)], queue)
    case Some(cwd) =>
      AfterBuild(ExecShellCommand(MakeCommand(exports), None, m.exec), CaseRunner(build, m),
                 Cleanup(build, m.settings, cwd), queue, cancelFrom)
  }

  /** The calls that start or skip a test, in order. */
  function Marks(t: seq<Event>): seq<Event>
  {
    if |t| == 0 then []
    else (if t[0].Started? || t[0].Skipped? then [t[0]] else []) + Marks(t[1..])
  }

  lemma {:induction false} MarksAppend(a: seq<Event>, b: seq<Event>)
    ensures Marks(a + b) == Marks(a) + Marks(b)
    decreases |a|
  {
    if |a| == 0 {
      assert a + b == b;
    } else {
      var head := if a[0].Started? || a[0].Skipped? then [a[0]] else [];
      assert (a + b)[0] == a[0];
      assert (a + b)[1..] == a[1..] + b;
      assert Marks(a + b) == head + Marks(a[1..] + b);
      MarksAppend(a[1..], b);
      assert head + (Marks(a[1..]) + Marks(b)) == (head + Marks(a[1..])) + Marks(b);
    }
  }

  lemma {:induction false} MarksNone(t: seq<Event>)
    requires forall i :: 0 <= i < |t| ==> !t[i].Started? && !t[i].Skipped?
    ensures Marks(t) == []
    decreases |t|
  {
    if |t| > 0 {
      MarksNone(t[1..]);
    }
  }

  lemma VerdictsUnmarked(t: seq<Event>)
    requires forall i :: 0 <= i < |t| ==> t[i].Spawned? || t[i].IsVerdict() || t[i].InfoPopup?
    ensures Marks(t) == []
  {
    MarksNone(t);
  }

  /** Running one case neither starts nor skips anything: that is left to the queue loop. This
      holds for the corrected `run` as well, so every fact below about the loop over an unmarked
      runner carries over to it. */
  lemma CaseRunUnmarked(build: Build, m: Machine)
    ensures Unmarked(CaseRunner(build, m))
    ensures Unmarked(CorrectedRunner(build, m))
  {
    forall tc: TestCase, id: string
      ensures Marks(CaseRunner(build, m)(tc, id).events) == []
      ensures Marks(CorrectedRunner(build, m)(tc, id).events) == []
    {
      VerdictsUnmarked(RunCaseAsWritten(build, m, tc, id).events);
      VerdictsUnmarked(RunCase(build, m, tc, id).events);
    }
  }

  /** For each queued case from `start` on, in queue order: skipped if cancellation was requested
      by then, started otherwise. */
  function Expected(queue: seq<Queued>, start: nat, cancelFrom: Option<nat>): (r: seq<Event>)
    ensures |r| == |queue|
    ensures forall i :: 0 <= i < |queue| ==>
      r[i] == if Cancelled(cancelFrom, start + i) then Skipped(queue[i].test.id) else Started(queue[i].test.id)
    decreases |queue|
  {
    if |queue| == 0 then []
    else
      var id := queue[0].test.id;
      var rest := Expected(queue[1..], start + 1, cancelFrom);
      assert forall i :: 1 <= i < |queue| ==> queue[1..][i - 1] == queue[i];
      [if Cancelled(cancelFrom, start) then Skipped(id) else Started(id)] + rest
  }

  /** The queue loop starts or skips every queued case exactly once, in queue order, and skips
      exactly those reached after cancellation was requested. */
  lemma {:induction false} RunCasesInOrder(run: Runner, queue: seq<Queued>, start: nat, cancelFrom: Option<nat>)
    requires Unmarked(run)
    ensures Marks(RunCases(run, queue, start, cancelFrom).events) == Expected(queue, start, cancelFrom)
    decreases |queue|
  {
    if |queue| > 0 {
      var step := CaseStep(run, queue[0], start, cancelFrom);
      var rest := RunCases(run, queue[1..], start + 1, cancelFrom);
      RunCasesInOrder(run, queue[1..], start + 1, cancelFrom);
      MarksAppend(step.events, rest.events);
    }
  }

  /** Once cancellation has been requested nothing runs any more: the rest of the loop only
      announces, skips and closes. */
  lemma {:induction false} CancelledRunsNothing(run: Runner, queue: seq<Queued>, start: nat, cancelFrom: Option<nat>)
    requires Cancelled(cancelFrom, start)
    ensures forall e :: e in RunCases(run, queue, start, cancelFrom).events ==> e.Output? || e.Skipped?
    decreases |queue|
  {
    if |queue| > 0 {
      CancelledRunsNothing(run, queue[1..], start + 1, cancelFrom);
    }
  }

  /** `cleanup` only runs commands and deletes files. */
  lemma CleanupUnmarked(build: Build, settings: Settings, cwd: string)
    ensures Marks(Cleanup(build, settings, cwd)) == []
  {
    MarksNone(Cleanup(build, settings, cwd));
  }

  /** After a successful build every queued case is started or skipped once, in queue order, and
      then the run ends and the clean-up follows. */
  lemma BuiltRunsInOrder(made: Invocation, run: Runner, clean: seq<Event>, queue: seq<Queued>, cancelFrom: Option<nat>)
    requires made.result.passed && Unmarked(run) && Marks(clean) == []
    ensures var r := AfterBuild(made, run, clean, queue, cancelFrom);
      && Marks(r.events) == Expected(queue, 0, cancelFrom)
      && r.events[|r.events| - |clean| - 1] == Ended
      && r.events[|r.events| - |clean|..] == clean
  {
    var cases := RunCases(run, queue, 0, cancelFrom);
    RunCasesInOrder(run, queue, 0, cancelFrom);
    MarksAppend([Spawned(made.command)], cases.events);
    MarksAppend([Spawned(made.command)] + cases.events, [Ended]);
    MarksAppend([Spawned(made.command)] + cases.events + [Ended], clean);
    assert Marks([Spawned(made.command)]) == [];
    assert Marks([Ended]) == [];
  }

  /** `runTestQueue` after a successful build: every queued case is started or skipped once, in
      queue order, then the run ends and `cleanup` follows. */
  lemma QueueRunsInOrder(build: Build, m: Machine, exports: Exports, queue: seq<Queued>, cancelFrom: Option<nat>)
    requires m.workspace.Some? && ExecShellCommand(MakeCommand(exports), None, m.exec).result.passed
    ensures var r := RunTestQueue(build, m, exports, queue, cancelFrom);
      var clean := Cleanup(build, m.settings, m.workspace.value);
      && Marks(r.events) == Expected(queue, 0, cancelFrom)
      && r.events[|r.events| - |clean| - 1] == Ended
      && r.events[|r.events| - |clean|..] == clean
  {
    CaseRunUnmarked(build, m);
    CleanupUnmarked(build, m.settings, m.workspace.value);
    BuiltRunsInOrder(ExecShellCommand(MakeCommand(exports), None, m.exec), CaseRunner(build, m),
                     Cleanup(build, m.settings, m.workspace.value), queue, cancelFrom);
  }

  /** A failed build runs no case: only the first queued case is reported, failed with the
      build's stderr, nothing passes, nothing is cleaned up, and the process exits with status 1;
      with nothing queued the handler throws instead. */
  lemma FailedBuildReport(made: Invocation, run: Runner, clean: seq<Event>, queue: seq<Queued>, cancelFrom: Option<nat>)
    requires !made.result.passed
    ensures var r := AfterBuild(made, run, clean, queue, cancelFrom);
      && (forall i :: 0 <= i < |r.events| ==> !r.events[i].Passed? && !r.events[i].Deleted? && !r.events[i].Skipped?)
      && (forall i :: 0 <= i < |r.events| && r.events[i].Spawned? ==> r.events[i] == Spawned(made.command))
      && (|queue| == 0 ==> r.events[|r.events| - 1] == Crash)
      && (|queue| > 0 ==>
            && FailureCount(r.events) == 1 && r.events[|r.events| - 1] == Exit(1)
            && r.events[3] == Failed(queue[0].test.id, Text(made.result.stderr)))
  {
    if |queue| > 0 {
      var failed := Failed(queue[0].test.id, Text(made.result.stderr));
      var before := [Spawned(made.command), Output(CompilationFailed), Started(queue[0].test.uri.text + "/data.getLabel()")];
      var after := [Ended, Exit(1)];
      assert AfterBuild(made, run, clean, queue, cancelFrom).events == before + [failed] + after;
      assert FailureCount([failed]) == 1;
      FailureCountAppend(before, [failed]);
      FailureCountAppend(before + [failed], after);
    }
  }

  /** `runTestQueue` after a failed build: see `FailedBuildReport`. */
  lemma FailedBuildRunsNothing(build: Build, m: Machine, exports: Exports, queue: seq<Queued>, cancelFrom: Option<nat>)
    requires m.workspace.Some? && !ExecShellCommand(MakeCommand(exports), None, m.exec).result.passed
    ensures var r := RunTestQueue(build, m, exports, queue, cancelFrom);
      var made := ExecShellCommand(MakeCommand(exports), None, m.exec);
      && (forall i :: 0 <= i < |r.events| ==> !r.events[i].Passed? && !r.events[i].Deleted? && !r.events[i].Skipped?)
      && (forall i :: 0 <= i < |r.events| && r.events[i].Spawned? ==> r.events[i] == Spawned(MakeCommand(exports)))
      && (|queue| == 0 ==> r.events[|r.events| - 1] == Crash)
      && (|queue| > 0 ==>
            && FailureCount(r.events) == 1 && r.events[|r.events| - 1] == Exit(1)
            && r.events[3] == Failed(queue[0].test.id, Text(made.result.stderr)))
  {
    FailedBuildReport(ExecShellCommand(MakeCommand(exports), None, m.exec), CaseRunner(build, m),
                      Cleanup(build, m.settings, m.workspace.value), queue, cancelFrom);
  }

  /** No later queue entry has the id of entry `k`. */
  ghost predicate LastWithId(queue: seq<Queued>, k: nat)
    requires k < |queue|
  {
    forall j :: k < j < |queue| ==> queue[j].test.id != queue[k].test.id
  }

  /** The last state each queued case reached, by id: every queued id has an entry, and it is the
      case of the last queue entry with that id. */
  function Results(queue: seq<Queued>): (r: map<string, TestCase>)
    ensures forall k :: 0 <= k < |queue| ==> queue[k].test.id in r
    ensures forall k :: 0 <= k < |queue| && LastWithId(queue, k) ==> r[queue[k].test.id] == queue[k].tc
    decreases |queue|
  {
    if |queue| == 0 then map[]
    else
      var n := |queue| - 1;
      var prior := Results(queue[..n]);
      assert forall k :: 0 <= k < n ==> queue[..n][k] == queue[k];
      assert forall k :: 0 <= k < n && LastWithId(queue, k) ==> LastWithId(queue[..n], k);
      prior[queue[n].test.id := queue[n].tc]
  }

  /** The catalog with the cases the run touched replaced by the state the run left them in. */
  function Restamp(items: seq<Item>, results: map<string, TestCase>): (r: seq<Item>)
    ensures |r| == |items|
    ensures forall i :: 0 <= i < |items| ==> r[i] == RestampItem(items[i], results)
    decreases items, 0
  {
    if |items| == 0 then [] else [RestampItem(items[0], results)] + Restamp(items[1..], results)
  }

  function RestampItem(item: Item, results: map<string, TestCase>): (r: Item)
    ensures r.id == item.id && r.name == item.name && r.uri == item.uri && r.range == item.range
    ensures item.data.CaseData? && item.id in results ==> r.data == CaseData(results[item.id])
    ensures !(item.data.CaseData? && item.id in results) ==> r.data == item.data
    decreases item, 1
  {
    var data := if item.data.CaseData? && item.id in results then CaseData(results[item.id]) else item.data;
    item.(data := data, children := Restamp(item.children, results))
  }

  /** Writing the results back changes no label and no position in the tree. */
  lemma {:induction false} RestampKeepsTree(items: seq<Item>, results: map<string, TestCase>)
    ensures Preorder(Restamp(items, results)) == Preorder(items)
    decreases items, 0
  {
    if |items| > 0 {
      RestampItemKeepsTree(items[0], results);
      RestampKeepsTree(items[1..], results);
      assert Restamp(items, results)[1..] == Restamp(items[1..], results);
    }
  }

  lemma {:induction false} RestampItemKeepsTree(item: Item, results: map<string, TestCase>)
    ensures Subtree(RestampItem(item, results)) == Subtree(item)
    decreases item, 1
  {
    RestampKeepsTree(item.children, results);
  }

  /** The effects of one run request and the state it leaves. */
  datatype Handled = Handled(events: seq<Event>, st: State)

  /** The run handler: discovery over the request's `include` list, or over all top-level items
      when there is none, then `runTestQueue` with the exports discovery left. Without an
      `include` list the discovered tree, with every run case's new state, becomes the catalog. */
  function RunHandler(build: Build, w: World, m: Machine, st: State, included: Option<seq<Item>>,
                      exclude: seq<string>, cancelFrom: Option<nat>): (r: Handled)
    ensures r.st.counter >= st.counter
    ensures |r.st.items| == |st.items|
    ensures forall i :: 0 <= i < |st.items| ==> r.st.items[i].id == st.items[i].id
  {
    var d := DiscoverForest(build, w, exclude, included.GetOr(st.items), st.counter, st.exports, true);
    var q := RunTestQueue(build, m, d.exports, d.queue, cancelFrom);
    var items := if included.None? then Restamp(d.items, Results(q.queue)) else st.items;
    Handled(d.trace + q.events, State(items, d.counter, d.exports))
  }

  /** With every file already read and nothing excluded by cancellation, a request without an
      `include` list enqueues the catalog's cases in document order, then builds, then starts
      each of them in that same order. */
  lemma HandlerRunsCatalogInOrder(build: Build, w: World, m: Machine, st: State, exclude: seq<string>)
    requires Settled(st.items) && m.workspace.Some?
    requires ExecShellCommand(MakeCommand(st.exports), None, m.exec).result.passed
    ensures var r := RunHandler(build, w, m, st, None, exclude, None);
      var cases := Cases(st.items, exclude);
      && |r.events| > |cases|
      && r.events[..|cases|] == Enqueues(cases)
      && r.events[|cases|] == Spawned(MakeCommand(st.exports))
      && Marks(r.events) == Expected(cases, 0, None)
      && r.st.counter == st.counter && r.st.exports == st.exports
  {
    DiscoverFindsCases(build, w, exclude, st.items, st.counter, st.exports, true);
    var d := DiscoverForest(build, w, exclude, st.items, st.counter, st.exports, true);
    var q := RunTestQueue(build, m, d.exports, d.queue, None);
    QueueRunsInOrder(build, m, d.exports, d.queue, None);
    MarksNone(d.trace);
    MarksAppend(d.trace, q.events);
  }
}
