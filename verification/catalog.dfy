/** The test catalog of src/testTree.ts and its compiled twin out/testTree.js: the `TestCase`
    constructor and `TestFile.updateFromContents`, which folds the parser's events into a tree of
    file, heading and case items stamped with a fresh generation number. */
module Catalog {
  import opened Wrappers
  import opened Toml
  import opened Parser

  /** Which of the two shipped versions of a function is meant where they differ: the TypeScript
      source or the older compiled JavaScript. */
  datatype Build = TsSource | CompiledJs

  /** A `vscode.Uri`: its scheme, its path, and `text`, what `toString()` gives. */
  datatype Uri = Uri(scheme: string, path: string, text: string)

  /** The per-case settings the TypeScript constructor reads from the test's table. */
  datatype CaseSettings = CaseSettings(
    inputArgs: Value, stdinFile: Value, outputFiles: Value, runValgrind: Value, diffStderr: Value)

  /** A `TestCase`: the compiled constructor reads no settings (`None`). */
  datatype TestCase = TestCase(name: string, generation: nat, passed: bool, settings: Option<CaseSettings>)
  {
    /** `getLabel()`. */
    function Label(): string { name }
  }

  /** `testDict[key] ?? default`; TOML has no `null`, so only a missing key falls back. */
  function SettingOr(dict: Value, key: string, default: Value): (r: Value)
    ensures Member(dict, key).None? ==> r == default
    ensures Member(dict, key).Some? ==> r == Member(dict, key).value
  {
    Member(dict, key).GetOr(default)
  }

  /** `new TestCase(name, testDict, generation)`. `None` is the `TypeError` the TypeScript
      constructor throws when `testDict` is `undefined`; the compiled one takes no dictionary. */
  function NewCase(build: Build, name: string, dict: Option<Value>, generation: nat): (r: Option<TestCase>)
    ensures r.Some? <==> build.CompiledJs? || dict.Some?
    ensures r.Some? ==> r.value.name == name && r.value.Label() == name
    ensures r.Some? ==> r.value.generation == generation && !r.value.passed
    ensures r.Some? ==> (r.value.settings.Some? <==> build.TsSource?)
  {
    match build
    case CompiledJs => Some(TestCase(name, generation, false, None))
    case TsSource =>
      match dict
      case None => None
      case Some(d) =>
        Some(TestCase(name, generation, false, Some(CaseSettings(
          SettingOr(d, "input_args", Arr([])),
          SettingOr(d, "stdin_file", Str("")),
          SettingOr(d, "output_files", Arr([])),
          SettingOr(d, "run_valgrind", Bool(true)),
          SettingOr(d, "diff_stderr", Str(""))))))
  }

  /** The TypeScript constructor reads each setting from the test's dictionary, and a missing key
      takes its default: no input arguments, no stdin file, no output files, Valgrind on, and no
      stderr file to compare. */
  lemma NewCaseDefaults(name: string, d: Value, generation: nat)
    ensures var s := NewCase(TsSource, name, Some(d), generation).value.settings.value;
      && (Member(d, "input_args").None? ==> s.inputArgs == Arr([]))
      && (Member(d, "stdin_file").None? ==> s.stdinFile == Str(""))
      && (Member(d, "output_files").None? ==> s.outputFiles == Arr([]))
      && (Member(d, "run_valgrind").None? ==> s.runValgrind == Bool(true))
      && (Member(d, "diff_stderr").None? ==> s.diffStderr == Str(""))
      && (Member(d, "run_valgrind").Some? ==> s.runValgrind == Member(d, "run_valgrind").value)
  {
  }

  /** What the `testData` map holds for an item. */
  datatype ItemData =
    | FileData(didResolve: bool)
    | HeadingData(generation: nat)
    | CaseData(tc: TestCase)

  /** A `vscode.TestItem` with its `testData` entry: `name` is its label, and `error` records whether
      an error is set. */
  datatype Item = Item(
    id: string, name: string, uri: Uri, range: Option<Range>, canResolveChildren: bool,
    error: bool, data: ItemData, children: seq<Item>)

  /** The item `onTest` creates under `file`: id `<file uri>/<label>`, label the case's label. */
  function CaseItem(file: Item, tc: TestCase, range: Range): Item {
    Item(file.uri.text + "/" + tc.Label(), tc.Label(), file.uri, Some(range), false, false, CaseData(tc), [])
  }

  /** The item `onHeading` creates under `file`: id `<file uri>/<name>`. */
  function HeadingItem(file: Item, name: string, range: Range, generation: nat): Item {
    Item(file.uri.text + "/" + name, name, file.uri, Some(range), false, false, HeadingData(generation), [])
  }

  /** The calls the catalog reacts to. `OnHeading` exists only in the compiled handler set;
      `parseTestsFile` never makes it. */
  datatype CatalogEvent =
    | OnTest(range: Range, name: string, dict: Option<Value>)
    | OnHeading(range: Range, name: string, depth: int)
  {
    function Name(): string {
      match this
      case OnTest(_, n, _) => n
      case OnHeading(_, n, _) => n
    }
  }

  /** The parser's `onTest` calls, as catalog events. */
  function TestCalls(events: seq<TestEvent>): (r: seq<CatalogEvent>)
    ensures |r| == |events|
    ensures forall i :: 0 <= i < |r| ==> r[i] == OnTest(events[i].range, events[i].name, events[i].dict)
  {
    seq(|events|, i requires 0 <= i < |events| => OnTest(events[i].range, events[i].name, events[i].dict))
  }

  /** An `ancestors` entry: an open item and the children collected for it so far. */
  datatype Frame = Frame(item: Item, children: seq<Item>)

  /** A frame closed into its parent: the parent gets the item, with the collected children. The
      source pushes the item when it is created and fills its children when it is popped; nothing
      is added to the parent in between, so the two give the same tree. */
  function Close(parent: Frame, top: Frame): Frame {
    parent.(children := parent.children + [top.item.(children := top.children)])
  }

  /** The tree the open frames describe: every frame closed into the one below it. */
  function Open(stack: seq<Frame>): seq<Item>
    requires |stack| > 0
    decreases |stack|
  {
    if |stack| == 1 then stack[0].children
    else Open(stack[..|stack| - 2] + [Close(stack[|stack| - 2], stack[|stack| - 1])])
  }

  /** The outcome of `ascend(depth)`: the frames left, the root's children if the root frame was
      popped (and so assigned to the file item), and whether it threw. */
  datatype Ascended = Ascended(stack: seq<Frame>, root: Option<seq<Item>>, threw: bool)

  /** `ascend(depth)`: pop while more than `depth` frames are open, each popped frame closed into
      the one below. With a negative depth it pops the root too and then throws, popping from an
      empty stack. */
  function Ascend(stack: seq<Frame>, depth: int): (r: Ascended)
    ensures r.threw <==> depth < 0
    ensures |r.stack| == if depth < 0 then 0 else if |stack| < depth then |stack| else depth
    ensures forall i :: 0 <= i < |r.stack| - 1 ==> r.stack[i] == stack[i]
    ensures |r.stack| > 0 ==> r.stack[|r.stack| - 1].item == stack[|r.stack| - 1].item
    ensures |r.stack| > 0 ==> Open(r.stack) == Open(stack)
    ensures r.root.Some? <==> |stack| > 0 && depth <= 0
    ensures r.root.Some? ==> r.root.value == Open(stack)
    decreases |stack|
  {
    if depth >= |stack| then Ascended(stack, None, false)
    else if |stack| == 0 then Ascended([], None, true)
    else if |stack| == 1 then
      var rest := Ascend([], depth);
      Ascended(rest.stack, Some(stack[0].children), rest.threw)
    else
      var k := |stack| - 2;
      var next := stack[..k] + [Close(stack[k], stack[k + 1])];
      var r := Ascend(next, depth);
      assert forall i :: 0 <= i < k ==> next[i] == stack[i];
      r
  }

  /** The frames with `more` added to the innermost one's children. */
  function AppendTop(stack: seq<Frame>, more: seq<Item>): (r: seq<Frame>)
    requires |stack| > 0
    ensures |r| == |stack| && r[..|stack| - 1] == stack[..|stack| - 1]
    ensures r[|stack| - 1] == Frame(stack[|stack| - 1].item, stack[|stack| - 1].children + more)
  {
    var k := |stack| - 1;
    stack[..k] + [Frame(stack[k].item, stack[k].children + more)]
  }

  /** One handler call: the frames after it, the root's children if the root was popped, and
      whether it threw. */
  function Step(build: Build, file: Item, generation: nat, stack: seq<Frame>, e: CatalogEvent): Ascended {
    match e
    case OnTest(range, name, dict) =>
      if |stack| == 0 then Ascended(stack, None, true)
      else
        var c := NewCase(build, name, dict, generation);
        if c.None? then Ascended(stack, None, true)
        else Ascended(AppendTop(stack, [CaseItem(file, c.value, range)]), None, false)
    case OnHeading(range, name, depth) =>
      var a := Ascend(stack, depth);
      if a.threw || |a.stack| == 0 then Ascended(a.stack, a.root, true)
      else Ascended(a.stack + [Frame(HeadingItem(file, name, range, generation), [])], None, false)
  }

  /** The handler calls for `events` in order, stopping at the first that throws. */
  function Fold(build: Build, file: Item, generation: nat, stack: seq<Frame>, events: seq<CatalogEvent>): (r: Ascended)
    ensures !r.threw ==> r.root.None?
    decreases |events|
  {
    if |events| == 0 then Ascended(stack, None, false)
    else
      var s := Step(build, file, generation, stack, events[0]);
      if s.threw then s else Fold(build, file, generation, s.stack, events[1..])
  }

  /** What one `updateFromContents` call leaves behind: the file item, the generation counter, and
      the parse itself (popups, exports, whether it threw). `threw` covers a throw from any handler. */
  datatype Update = Update(file: Item, counter: nat, parse: ParseRun, threw: bool)

  /** `updateFromContents(controller, text, file)` with the generation counter at `counter`, where
      `parsed` is what `toml.parse(text)` gives and `exports` are the parser's exports before. */
  function UpdateFromContents(build: Build, counter: nat, file: Item, text: string, parsed: Option<Entries>, exports: Exports): (r: Update)
    ensures r.counter == counter + 1
    ensures r.file.data == FileData(true)
    ensures r.file.id == file.id && r.file.name == file.name && r.file.uri == file.uri
    ensures r.parse == ParseTestsFile(text, parsed, exports)
    ensures r.parse.threw ==> r.threw && r.file.children == file.children
  {
    var p := ParseTestsFile(text, parsed, exports);
    var resolved := file.(data := FileData(true));
    if p.threw then Update(resolved, counter + 1, p, true)
    else
      var f := Fold(build, resolved, counter, [Frame(resolved, [])], TestCalls(p.events));
      if f.threw then
        Update(resolved.(children := f.root.GetOr(file.children)), counter + 1, p, true)
      else
        var closed := Ascend(f.stack, 0);
        Update(resolved.(children := closed.root.GetOr(file.children)), counter + 1, p, false)
  }

  /** A `queue` entry of the run handler: the test item and its case. */
  datatype Queued = Queued(test: Item, tc: TestCase)

  /** The labels of a forest in pre-order: each item before its children, siblings in order. */
  function Preorder(items: seq<Item>): seq<string>
    decreases items, 0
  {
    if |items| == 0 then [] else Subtree(items[0]) + Preorder(items[1..])
  }

  /** The labels of one item and its descendants in pre-order. */
  function Subtree(item: Item): seq<string>
    decreases item, 1
  {
    [item.name] + Preorder(item.children)
  }

  lemma {:induction false} PreorderAppend(a: seq<Item>, b: seq<Item>)
    ensures Preorder(a + b) == Preorder(a) + Preorder(b)
    decreases |a|
  {
    if |a| > 0 {
      assert (a + b)[0] == a[0];
      assert (a + b)[1..] == a[1..] + b;
      PreorderAppend(a[1..], b);
    } else {
      assert a + b == b;
    }
  }

  /** The labels the open frames stand for, in pre-order: the root's collected children, then for
      each open item its label and its collected children. */
  function Flat(stack: seq<Frame>): seq<string>
    requires |stack| > 0
    decreases |stack|
  {
    if |stack| == 1 then Preorder(stack[0].children)
    else
      var top := stack[|stack| - 1];
      Flat(stack[..|stack| - 1]) + [top.item.name] + Preorder(top.children)
  }

  /** Closing the frames changes nothing in the pre-order they stand for. */
  lemma {:induction false} OpenFlat(stack: seq<Frame>)
    requires |stack| > 0
    ensures Preorder(Open(stack)) == Flat(stack)
    decreases |stack|
  {
    if |stack| > 1 {
      var k := |stack| - 2;
      var top := stack[k + 1];
      var closed := top.item.(children := top.children);
      var next := stack[..k] + [Close(stack[k], top)];
      OpenFlat(next);
      PreorderAppend(stack[k].children, [closed]);
      assert Preorder([closed]) == Subtree(closed);
      assert stack[..k + 1][..k] == stack[..k];
      if k > 0 {
        assert next[..k] == stack[..k];
      }
    }
  }

  /** A case appended to the innermost open item lands last in the pre-order. */
  lemma FlatAppendTop(stack: seq<Frame>, c: Item)
    requires |stack| > 0 && c.children == []
    ensures Flat(AppendTop(stack, [c])) == Flat(stack) + [c.name]
  {
    var k := |stack| - 1;
    PreorderAppend(stack[k].children, [c]);
    LeafPreorder(c);
  }

  lemma LeafPreorder(c: Item)
    requires c.children == []
    ensures Preorder([c]) == [c.name]
  {
    assert [c][1..] == [];
  }

  /** The labels of the calls, in order. */
  function Names(events: seq<CatalogEvent>): (r: seq<string>)
    ensures |r| == |events|
    ensures forall i :: 0 <= i < |events| ==> r[i] == events[i].Name()
  {
    seq(|events|, i requires 0 <= i < |events| => events[i].Name())
  }

  lemma NamesCons(events: seq<CatalogEvent>)
    requires |events| > 0
    ensures Names(events) == [events[0].Name()] + Names(events[1..])
  {
  }

  /** A heading closes the frames above its depth, which leaves the pre-order alone, and opens
      itself last. */
  lemma HeadingStepFlat(build: Build, file: Item, generation: nat, stack: seq<Frame>, range: Range, name: string, depth: int)
    requires |stack| > 0
    ensures var s := Step(build, file, generation, stack, OnHeading(range, name, depth));
      !s.threw ==> |s.stack| > 0 && Flat(s.stack) == Flat(stack) + [name]
  {
    var a := Ascend(stack, depth);
    if !a.threw && |a.stack| > 0 {
      OpenFlat(stack);
      OpenFlat(a.stack);
      var s := a.stack + [Frame(HeadingItem(file, name, range, generation), [])];
      assert s[..|a.stack|] == a.stack;
    }
  }

  /** A heading at depth `d`, with at least `d` frames open, leaves the first `d` frames as
      `ascend(d)` left them and opens one frame of its own on top, empty; while nothing is added
      under it, that frame stands for the heading attached last to the group at depth `d`. */
  lemma HeadingOpensGroup(build: Build, file: Item, generation: nat, stack: seq<Frame>, range: Range, name: string, depth: int)
    requires 1 <= depth <= |stack|
    ensures var s := Step(build, file, generation, stack, OnHeading(range, name, depth));
      var a := Ascend(stack, depth).stack;
      var h := HeadingItem(file, name, range, generation);
      && !s.threw && s.root.None? && |s.stack| == depth + 1
      && s.stack[..depth] == a
      && s.stack[depth] == Frame(h, [])
      && Open(s.stack) == Open(AppendTop(a, [h]))
  {
    var a := Ascend(stack, depth).stack;
    var h := HeadingItem(file, name, range, generation);
    var s := a + [Frame(h, [])];
    assert s[..depth] == a;
    assert s[..depth - 1] == a[..depth - 1];
    assert Close(s[depth - 1], s[depth]) == Frame(a[depth - 1].item, a[depth - 1].children + [h]);
  }

  /** A case that follows a heading at depth `d` lands in that heading's children: the first `d`
      frames stay as `ascend(d)` left them and the heading's frame holds the one case. */
  lemma CaseFollowsHeading(build: Build, file: Item, generation: nat, stack: seq<Frame>, range: Range, name: string, depth: int, test: CatalogEvent)
    requires 1 <= depth <= |stack|
    requires test.OnTest? && NewCase(build, test.name, test.dict, generation).Some?
    ensures var s := Step(build, file, generation, stack, OnHeading(range, name, depth));
      var t := Step(build, file, generation, s.stack, test);
      var c := NewCase(build, test.name, test.dict, generation).value;
      && !t.threw && |t.stack| == depth + 1
      && t.stack[..depth] == Ascend(stack, depth).stack
      && t.stack[depth] == Frame(HeadingItem(file, name, range, generation), [CaseItem(file, c, test.range)])
  {
    HeadingOpensGroup(build, file, generation, stack, range, name, depth);
    var s := Step(build, file, generation, stack, OnHeading(range, name, depth));
    var t := AppendTop(s.stack, [CaseItem(file, NewCase(build, test.name, test.dict, generation).value, test.range)]);
    assert t[..depth] == s.stack[..depth];
  }

  lemma StepFlat(build: Build, file: Item, generation: nat, stack: seq<Frame>, e: CatalogEvent)
    requires |stack| > 0
    ensures var s := Step(build, file, generation, stack, e);
      !s.threw ==> |s.stack| > 0 && Flat(s.stack) == Flat(stack) + [e.Name()]
  {
    match e
    case OnTest(range, name, dict) =>
      var c := NewCase(build, name, dict, generation);
      if c.Some? {
        FlatAppendTop(stack, CaseItem(file, c.value, range));
      }
    case OnHeading(range, name, depth) =>
      HeadingStepFlat(build, file, generation, stack, range, name, depth);
  }

  /** As long as no handler throws, the frames stand for exactly the labels seen so far, in order. */
  lemma {:induction false} FoldFlat(build: Build, file: Item, generation: nat, stack: seq<Frame>, events: seq<CatalogEvent>)
    requires |stack| > 0
    ensures var r := Fold(build, file, generation, stack, events);
      !r.threw ==> |r.stack| > 0 && Flat(r.stack) == Flat(stack) + Names(events)
    decreases |events|
  {
    if |events| > 0 {
      var s := Step(build, file, generation, stack, events[0]);
      StepFlat(build, file, generation, stack, events[0]);
      if !s.threw {
        FoldFlat(build, file, generation, s.stack, events[1..]);
        NamesCons(events);
        ConcatAssoc(Flat(stack), [events[0].Name()], Names(events[1..]));
      }
    }
  }

  /** The nesting of the compiled handlers: when no handler throws, the tree assigned to the file
      lists every test and heading label, each heading before the items nested under it, in the
      order of the calls. */
  lemma HeadingsNestInPreorder(build: Build, file: Item, generation: nat, events: seq<CatalogEvent>)
    ensures var f := Fold(build, file, generation, [Frame(file, [])], events);
      !f.threw ==> Ascend(f.stack, 0).root.Some? && Preorder(Ascend(f.stack, 0).root.value) == Names(events)
  {
    var f := Fold(build, file, generation, [Frame(file, [])], events);
    FoldFlat(build, file, generation, [Frame(file, [])], events);
    if !f.threw {
      OpenFlat(f.stack);
    }
  }

  /** One test call on a lone root frame: the case is appended, or the constructor throws. */
  lemma TestStep(build: Build, file: Item, generation: nat, root: Item, cs: seq<Item>, e: TestEvent)
    ensures var c := NewCase(build, e.name, e.dict, generation);
      Step(build, file, generation, [Frame(root, cs)], OnTest(e.range, e.name, e.dict))
        == if c.None? then Ascended([Frame(root, cs)], None, true)
           else Ascended([Frame(root, cs + [CaseItem(file, c.value, e.range)])], None, false)
  {
  }

  /** The case items for the test calls `events`, or `None` if the constructor throws for one. */
  function NewCases(build: Build, file: Item, generation: nat, events: seq<TestEvent>): (r: Option<seq<Item>>)
    ensures r.None? <==> exists i :: 0 <= i < |events| && NewCase(build, events[i].name, events[i].dict, generation).None?
    ensures r.Some? ==> |r.value| == |events| && forall i :: 0 <= i < |events| ==>
      var c := NewCase(build, events[i].name, events[i].dict, generation);
      c.Some? && r.value[i] == CaseItem(file, c.value, events[i].range)
    decreases |events|
  {
    if |events| == 0 then Some([])
    else
      var c := NewCase(build, events[0].name, events[0].dict, generation);
      var rest := NewCases(build, file, generation, events[1..]);
      assert forall i :: 0 < i < |events| ==> events[1..][i - 1] == events[i];
      if c.None? || rest.None? then None
      else Some([CaseItem(file, c.value, events[0].range)] + rest.value)
  }

  /** Folding only test calls appends one case item per call to the root, in order; it throws
      exactly when the source constructor throws for one of them. */
  lemma FoldTests(build: Build, file: Item, generation: nat, root: Item, cs: seq<Item>, events: seq<TestEvent>)
    ensures var r := Fold(build, file, generation, [Frame(root, cs)], TestCalls(events));
      var n := NewCases(build, file, generation, events);
      && (r.threw <==> n.None?)
      && r.root.None?
      && (n.Some? ==> r.stack == [Frame(root, cs + n.value)])
  {
    FoldTestsThrow(build, file, generation, root, cs, events);
    FoldTestsAppend(build, file, generation, root, cs, events);
  }

  lemma {:induction false} FoldTestsThrow(build: Build, file: Item, generation: nat, root: Item, cs: seq<Item>, events: seq<TestEvent>)
    ensures var r := Fold(build, file, generation, [Frame(root, cs)], TestCalls(events));
      (r.threw <==> NewCases(build, file, generation, events).None?) && r.root.None?
    decreases |events|
  {
    if |events| > 0 {
      var c := NewCase(build, events[0].name, events[0].dict, generation);
      FoldFirstTest(build, file, generation, root, cs, events);
      if c.Some? {
        FoldTestsThrow(build, file, generation, root, cs + [CaseItem(file, c.value, events[0].range)], events[1..]);
      }
    }
  }

  lemma {:induction false} FoldTestsAppend(build: Build, file: Item, generation: nat, root: Item, cs: seq<Item>, events: seq<TestEvent>)
    ensures var n := NewCases(build, file, generation, events);
      n.Some? ==> Fold(build, file, generation, [Frame(root, cs)], TestCalls(events)).stack == [Frame(root, cs + n.value)]
    decreases |events|
  {
    if |events| > 0 {
      var c := NewCase(build, events[0].name, events[0].dict, generation);
      FoldFirstTest(build, file, generation, root, cs, events);
      if c.Some? {
        var item := CaseItem(file, c.value, events[0].range);
        FoldTestsAppend(build, file, generation, root, cs + [item], events[1..]);
        var n := NewCases(build, file, generation, events[1..]);
        if n.Some? {
          ConcatAssoc(cs, [item], n.value);
        }
      }
    } else {
      assert cs + [] == cs;
    }
  }

  lemma ConcatAssoc<T>(a: seq<T>, b: seq<T>, c: seq<T>)
    ensures a + b + c == a + (b + c)
  {
  }

  /** The first of a run of test calls either throws or appends its case and leaves the rest. */
  lemma FoldFirstTest(build: Build, file: Item, generation: nat, root: Item, cs: seq<Item>, events: seq<TestEvent>)
    requires |events| > 0
    ensures var c := NewCase(build, events[0].name, events[0].dict, generation);
      Fold(build, file, generation, [Frame(root, cs)], TestCalls(events))
        == if c.None? then Ascended([Frame(root, cs)], None, true)
           else Fold(build, file, generation, [Frame(root, cs + [CaseItem(file, c.value, events[0].range)])], TestCalls(events[1..]))
  {
    TestStep(build, file, generation, root, cs, events[0]);
    assert TestCalls(events)[1..] == TestCalls(events[1..]);
  }

  /** After `updateFromContents` the file's children are exactly the parsed tests in document
      order, each a fresh case of the new generation with id `<file uri>/<name>`; if the parse
      throws, or a case cannot be constructed, the children stay as they were. */
  lemma UpdateListsCases(build: Build, counter: nat, file: Item, text: string, parsed: Option<Entries>, exports: Exports)
    ensures var r := UpdateFromContents(build, counter, file, text, parsed, exports);
      var events := r.parse.events;
      && (r.threw <==> r.parse.threw || exists i :: 0 <= i < |events| && NewCase(build, events[i].name, events[i].dict, counter).None?)
      && (r.threw ==> r.file.children == file.children)
      && (!r.threw ==>
            && |r.file.children| == |events|
            && forall i :: 0 <= i < |events| ==>
                 var c := r.file.children[i];
                 && c.name == events[i].name && c.id == file.uri.text + "/" + events[i].name
                 && c.uri == file.uri && c.range == Some(events[i].range) && c.children == []
                 && c.data.CaseData? && c.data.tc == NewCase(build, events[i].name, events[i].dict, counter).value
                 && c.data.tc.generation == counter && !c.data.tc.passed)
  {
    var p := ParseTestsFile(text, parsed, exports);
    if !p.threw {
      var resolved := file.(data := FileData(true));
      FoldTests(build, resolved, counter, resolved, [], p.events);
      var n := NewCases(build, resolved, counter, p.events);
      if n.Some? {
        assert [] + n.value == n.value;
        var children := UpdateFromContents(build, counter, file, text, parsed, exports).file.children;
        assert children == n.value;
        forall i | 0 <= i < |p.events|
          ensures var c := children[i];
            && c.name == p.events[i].name && c.id == file.uri.text + "/" + p.events[i].name
            && c.uri == file.uri && c.range == Some(p.events[i].range) && c.children == []
            && c.data.CaseData? && c.data.tc == NewCase(build, p.events[i].name, p.events[i].dict, counter).value
            && c.data.tc.generation == counter && !c.data.tc.passed
        {
          var tc := NewCase(build, p.events[i].name, p.events[i].dict, counter).value;
          assert children[i] == CaseItem(resolved, tc, p.events[i].range);
        }
      }
    }
  }
}
