/** `parseTestsFile` (src/parser.ts, compiled twin out/parser.js): checks the parsed TOML document's
    `[config]` and `[tests]` keys, then reports one test per `[tests.<name>]` header line of the raw text. */
module Parser {
  import opened Wrappers
  import opened JsStrings
  import opened Toml

  /** Keys `[config]` must have. */
  const ConfigArgs: seq<string> := ["exec", "ref_exec", "build_target"]
  /** Keys a `[tests.<name>]` table may have. */
  const TestArgs: seq<string> := ["argv", "stdin_file", "created_files"]
  /** The literal `\[tests\.` of the header pattern; `slice(7, -1)` removes exactly it. */
  const HeaderPrefix: string := "[tests."

  /** A message popped up while checking the document. */
  datatype Diagnostic =
    | MissingConfigSection
    | MissingConfigVar(arg: string)
    | UnknownConfigVar(arg: string)
    | MissingTestsSection
    | UnknownTestVar(test: string, arg: string)
  {
    /** Shown with `showErrorMessage` rather than `showWarningMessage`. */
    predicate IsError() {
      MissingConfigSection? || MissingConfigVar? || MissingTestsSection?
    }

    function Text(): string {
      match this
      case MissingConfigSection => "Error: missing [config] section"
      case MissingConfigVar(a) => "Error: missing [config] variable: " + a
      case UnknownConfigVar(a) => "Warning: unknown [config] variable: " + a
      case MissingTestsSection => "Error: missing section [tests.testname]"
      case UnknownTestVar(t, a) => "Warning: unknown variable in [tests." + t + "]: " + a
    }
  }

  /** The module's exported `executableFileName`, `referenceExecutable` and `buildTarget`;
      `None` is `undefined`. */
  datatype Exports = Exports(exec: Option<Value>, refExec: Option<Value>, buildTarget: Option<Value>)

  /** The exports before any document is parsed. */
  const InitialExports: Exports := Exports(Some(Str("")), Some(Str("")), Some(Str("")))

  /** A zero-based line/column position and a range of them, as `vscode.Position`/`vscode.Range`. */
  datatype Position = Position(line: nat, character: nat)
  datatype Range = Range(start: Position, end: Position)

  /** One `onTest(range, name, testDict)` call; `dict` is `data['tests'][name]`. */
  datatype TestEvent = TestEvent(range: Range, name: string, dict: Option<Value>)

  /** Everything one call does: the popups in order, the exports afterwards, the `onTest` calls in
      order, and whether it ended by throwing. */
  datatype ParseRun = ParseRun(diagnostics: seq<Diagnostic>, exports: Exports, events: seq<TestEvent>, threw: bool)

  /** The keys of `keys`, in order, that are not in `allowed`. */
  function KeysOutside(keys: seq<string>, allowed: seq<string>): (r: seq<string>)
    ensures forall k :: k in r <==> k in keys && k !in allowed
    ensures IsSubsequence(r, keys)
  {
    if |keys| == 0 then []
    else
      var rest := KeysOutside(keys[1..], allowed);
      if keys[0] in allowed then rest
      else
        assert ([keys[0]] + rest)[1..] == rest;
        [keys[0]] + rest
  }

  /** One error per required config key the config lacks, in `ConfigArgs` order. */
  function MissingConfigVars(present: seq<string>): (r: seq<Diagnostic>)
    ensures forall d :: d in r ==> d.MissingConfigVar?
    ensures forall a :: MissingConfigVar(a) in r <==> a in ConfigArgs && a !in present
    ensures IsSubsequence(ArgsOf(r), ConfigArgs)
  {
    var missing := KeysOutside(ConfigArgs, present);
    var r := seq(|missing|, i requires 0 <= i < |missing| => MissingConfigVar(missing[i]));
    assert ArgsOf(r) == missing by { ArgsOfMap(missing); }
    forall a | a in missing ensures MissingConfigVar(a) in r {
      var i :| 0 <= i < |missing| && missing[i] == a;
      assert r[i] == MissingConfigVar(a);
    }
    r
  }

  /** One warning per config key that is not a known one, in the config's key order. */
  function UnknownConfigVars(present: seq<string>): (r: seq<Diagnostic>)
    ensures forall d :: d in r ==> d.UnknownConfigVar?
    ensures forall a :: UnknownConfigVar(a) in r <==> a in present && a !in ConfigArgs
    ensures IsSubsequence(ArgsOf(r), present)
  {
    var unknown := KeysOutside(present, ConfigArgs);
    var r := seq(|unknown|, i requires 0 <= i < |unknown| => UnknownConfigVar(unknown[i]));
    assert ArgsOf(r) == unknown by { ArgsOfUnknownMap(unknown); }
    forall a | a in unknown ensures UnknownConfigVar(a) in r {
      var i :| 0 <= i < |unknown| && unknown[i] == a;
      assert r[i] == UnknownConfigVar(a);
    }
    r
  }

  /** The `arg` of each config-variable diagnostic, in order. */
  function ArgsOf(ds: seq<Diagnostic>): seq<string> {
    if |ds| == 0 then []
    else if ds[0].MissingConfigVar? || ds[0].UnknownConfigVar? then [ds[0].arg] + ArgsOf(ds[1..])
    else ArgsOf(ds[1..])
  }

  lemma ArgsOfMap(ks: seq<string>)
    ensures ArgsOf(seq(|ks|, i requires 0 <= i < |ks| => MissingConfigVar(ks[i]))) == ks
  {
    if |ks| > 0 {
      var m := seq(|ks|, i requires 0 <= i < |ks| => MissingConfigVar(ks[i]));
      assert m[1..] == seq(|ks[1..]|, i requires 0 <= i < |ks[1..]| => MissingConfigVar(ks[1..][i]));
      ArgsOfMap(ks[1..]);
    }
  }

  lemma ArgsOfUnknownMap(ks: seq<string>)
    ensures ArgsOf(seq(|ks|, i requires 0 <= i < |ks| => UnknownConfigVar(ks[i]))) == ks
  {
    if |ks| > 0 {
      var m := seq(|ks|, i requires 0 <= i < |ks| => UnknownConfigVar(ks[i]));
      assert m[1..] == seq(|ks[1..]|, i requires 0 <= i < |ks[1..]| => UnknownConfigVar(ks[1..][i]));
      ArgsOfUnknownMap(ks[1..]);
    }
  }

  /** One warning per (test, key) pair whose key is not a known test key, tests and keys in order. */
  function UnknownTestVars(tests: Entries): (r: seq<Diagnostic>)
    ensures forall d :: d in r ==> d.UnknownTestVar?
  {
    if |tests| == 0 then []
    else TestWarnings(tests[0].0, KeysOutside(ObjectKeys(tests[0].1), TestArgs)) + UnknownTestVars(tests[1..])
  }

  function TestWarnings(name: string, unknown: seq<string>): (r: seq<Diagnostic>)
    ensures forall a :: UnknownTestVar(name, a) in r <==> a in unknown
    ensures forall d :: d in r ==> d.UnknownTestVar? && d.test == name
  {
    if |unknown| == 0 then [] else [UnknownTestVar(name, unknown[0])] + TestWarnings(name, unknown[1..])
  }

  /** Test `t` of the `[tests]` table has key `a`, and `a` is not a known test key. */
  ghost predicate HasUnknownTestKey(tests: Entries, t: string, a: string) {
    exists i :: 0 <= i < |tests| && tests[i].0 == t && a in ObjectKeys(tests[i].1) && a !in TestArgs
  }

  /** A warning names exactly the (test, key) pairs whose key is unknown. */
  lemma {:induction false} UnknownTestVarsExact(tests: Entries)
    ensures forall t, a :: UnknownTestVar(t, a) in UnknownTestVars(tests) <==> HasUnknownTestKey(tests, t, a)
    decreases |tests|
  {
    if |tests| > 0 {
      UnknownTestVarsExact(tests[1..]);
      var here := TestWarnings(tests[0].0, KeysOutside(ObjectKeys(tests[0].1), TestArgs));
      forall t, a
        ensures UnknownTestVar(t, a) in UnknownTestVars(tests) <==> HasUnknownTestKey(tests, t, a)
      {
        if HasUnknownTestKey(tests, t, a) {
          var i :| 0 <= i < |tests| && tests[i].0 == t && a in ObjectKeys(tests[i].1) && a !in TestArgs;
          if i > 0 {
            assert tests[1..][i - 1] == tests[i];
            assert HasUnknownTestKey(tests[1..], t, a);
          }
        }
        if UnknownTestVar(t, a) in UnknownTestVars(tests[1..]) {
          var i :| 0 <= i < |tests[1..]| && tests[1..][i].0 == t && a in ObjectKeys(tests[1..][i].1) && a !in TestArgs;
          assert tests[i + 1] == tests[1..][i];
        }
        if UnknownTestVar(t, a) in here {
          assert t == tests[0].0;
        }
      }
    }
  }

  /** Where a header match sits on its line: `line[..length]` is the match, `indent` the length of
      the leading `\s*` and `bracket` the index of the closing `]`. */
  datatype Shape = Shape(indent: nat, bracket: nat, length: nat)

  /** A header line as the scan reports it: the match length and the test name. */
  datatype HeaderHit = HeaderHit(length: nat, name: string)

  /** The end of the run of non-terminator characters from `from`: as far as `.*` can reach. */
  function RunEnd(line: string, from: nat): (e: nat)
    requires from <= |line|
    ensures from <= e <= |line|
    ensures forall i :: from <= i < e ==> !IsLineTerminator(line[i])
    ensures e < |line| ==> IsLineTerminator(line[e])
    decreases |line| - from
  {
    if from == |line| || IsLineTerminator(line[from]) then from else RunEnd(line, from + 1)
  }

  /** The last index in [lo, hi) that holds `]`. */
  function LastBracket(line: string, lo: nat, hi: nat): (r: Option<nat>)
    requires lo <= hi <= |line|
    ensures r.Some? ==> lo <= r.value < hi && line[r.value] == ']'
    ensures r.Some? ==> forall i :: r.value < i < hi ==> line[i] != ']'
    ensures r.None? ==> forall i :: lo <= i < hi ==> line[i] != ']'
    decreases hi - lo
  {
    if lo == hi then None
    else if line[hi - 1] == ']' then Some(hi - 1)
    else LastBracket(line, lo, hi - 1)
  }

  /** `exec` of the pattern `^\s*\[tests\..*\]\s*` on `line`. */
  function MatchHeader(line: string): Option<Shape>
  {
    var w := LeadingSpaces(line);
    if !(HeaderPrefix <= line[w..]) then None
    else
      var p := w + |HeaderPrefix|;
      match LastBracket(line, p, RunEnd(line, p))
      case None => None
      case Some(q) =>
        Some(ShapeAt(line, w, q))
  }

  /** What `MatchHeader` finds is a match of the pattern. */
  lemma MatchHeaderSound(line: string)
    requires MatchHeader(line).Some?
    ensures var h := MatchHeader(line).value;
      IsMatch(line, h.indent, h.bracket, h.length) && line[h.indent] == '['
  {
    var w := LeadingSpaces(line);
    var p := w + |HeaderPrefix|;
    ShapeAtMatches(line, w, LastBracket(line, p, RunEnd(line, p)).value);
  }

  /** The match that ends at the `]` at `q`: indentation `w` and the longest trailing `\s*`. */
  function ShapeAt(line: string, w: nat, q: nat): (r: Shape)
    requires q < |line|
    ensures r.indent == w && r.bracket == q && r.length == q + 1 + LeadingSpaces(line[q + 1..])
  {
    Shape(w, q, q + 1 + LeadingSpaces(line[q + 1..]))
  }

  /** A `]` reached by `.*` after `[tests.` completes a match. */
  lemma ShapeAtMatches(line: string, w: nat, q: nat)
    requires w + |HeaderPrefix| <= q < |line| && AllSpaces(line[..w]) && HeaderPrefix <= line[w..]
    requires forall i :: w + |HeaderPrefix| <= i < q ==> !IsLineTerminator(line[i])
    requires line[q] == ']'
    ensures var r := ShapeAt(line, w, q);
      IsMatch(line, r.indent, r.bracket, r.length) && line[r.indent] == '['
  {
    var rest := line[q + 1..];
    var t := LeadingSpaces(rest);
    assert AllSpaces(line[q + 1..q + 1 + t]) by {
      assert line[q + 1..q + 1 + t] == rest[..t];
    }
    IsMatchIntro(line, w, q, q + 1 + t);
  }

  /** The header on `line`, if any: for a match `m`, its length and the name `m.trim().slice(7, -1)`. */
  function Header(line: string): (r: Option<HeaderHit>)
    ensures r.Some? <==> MatchHeader(line).Some?
    ensures r.Some? ==> var m := MatchHeader(line).value;
      r.value.length == m.length && r.value.name == line[m.indent + |HeaderPrefix|..m.bracket]
  {
    match MatchHeader(line)
    case None => None
    case Some(m) =>
      MatchHeaderSound(line);
      HeaderName(line, m.indent, m.bracket, m.length);
      Some(HeaderHit(m.length, JsSlice(Trim(line[..m.length]), 7, -1)))
  }

  /** `line[..end]` has the shape `\s*` `[tests.` `.*` `]` `\s*`, with indentation `indent` and the
      closing bracket at `bracket`. */
  ghost predicate IsMatch(line: string, indent: nat, bracket: nat, end: nat) {
    && indent + |HeaderPrefix| <= bracket < end <= |line|
    && AllSpaces(line[..indent])
    && line[indent..indent + |HeaderPrefix|] == HeaderPrefix
    && (forall i :: indent + |HeaderPrefix| <= i < bracket ==> !IsLineTerminator(line[i]))
    && line[bracket] == ']'
    && AllSpaces(line[bracket + 1..end])
  }

  /** The match `exec` returns: of all ways the pattern fits the start of the line, the one whose
      `.*` reaches the last possible `]` and whose trailing `\s*` is then longest. The reported name
      is the text between `[tests.` and that bracket, so a later `]` on the line wins. */
  lemma MatchHeaderIsGreedy(line: string)
    ensures MatchHeader(line).None? ==> forall w: nat, q: nat, e: nat :: !IsMatch(line, w, q, e)
    ensures MatchHeader(line).Some? ==>
      var h := MatchHeader(line).value;
      && IsMatch(line, h.indent, h.bracket, h.length)
      && forall w: nat, q: nat, e: nat :: IsMatch(line, w, q, e) ==> w == h.indent && q <= h.bracket && (q == h.bracket ==> e <= h.length)
  {
    if MatchHeader(line).Some? {
      MatchHeaderSound(line);
    }
    forall w: nat, q: nat, e: nat | IsMatch(line, w, q, e)
      ensures MatchHeader(line).Some?
      ensures w == MatchHeader(line).value.indent && q <= MatchHeader(line).value.bracket
      ensures q == MatchHeader(line).value.bracket ==> e <= MatchHeader(line).value.length
    {
      MatchIsMaximal(line, w, q, e);
    }
  }

  lemma MatchIndentForced(line: string, w: nat, q: nat, e: nat)
    requires IsMatch(line, w, q, e)
    ensures w == LeadingSpaces(line)
  {
    var w0 := LeadingSpaces(line);
    assert line[w] == '[' by { assert line[w..w + |HeaderPrefix|][0] == line[w]; }
    assert w0 < |line| ==> !IsJsSpace(line[w0]);
    assert forall i :: 0 <= i < w0 ==> IsJsSpace(line[..w0][i]);
    assert forall i :: 0 <= i < w ==> IsJsSpace(line[..w][i]);
  }

  lemma MatchIsMaximal(line: string, w: nat, q: nat, e: nat)
    requires IsMatch(line, w, q, e)
    ensures MatchHeader(line).Some?
    ensures w == MatchHeader(line).value.indent && q <= MatchHeader(line).value.bracket
    ensures q == MatchHeader(line).value.bracket ==> e <= MatchHeader(line).value.length
  {
    MatchReachesBracket(line, w, q, e);
  }

  /** The steps `MatchHeader` takes all succeed on a line that matches, and end no earlier. */
  lemma MatchReachesBracket(line: string, w: nat, q: nat, e: nat)
    requires IsMatch(line, w, q, e)
    ensures w == LeadingSpaces(line) && HeaderPrefix <= line[w..]
    ensures var p := w + |HeaderPrefix|;
      var b := LastBracket(line, p, RunEnd(line, p));
      && b.Some? && q <= b.value
      && (q == b.value ==> e <= q + 1 + LeadingSpaces(line[q + 1..]))
  {
    MatchIndentForced(line, w, q, e);
    assert HeaderPrefix <= line[w..] by {
      assert line[w..][..|HeaderPrefix|] == line[w..w + |HeaderPrefix|];
    }
    var p := w + |HeaderPrefix|;
    var e0 := RunEnd(line, p);
    assert q < e0;
    var b := LastBracket(line, p, e0);
    if b.value == q {
      assert line[q + 1..][..e - q - 1] == line[q + 1..e];
      SpacesWithinRun(line[q + 1..], e - q - 1);
    }
  }

  /** No run of whitespace at the start of `s` is longer than `LeadingSpaces(s)`. */
  lemma SpacesWithinRun(s: string, k: nat)
    requires k <= |s| && AllSpaces(s[..k])
    ensures k <= LeadingSpaces(s)
  {
    forall i | 0 <= i < k ensures IsJsSpace(s[i]) {
      assert s[..k][i] == s[i];
    }
  }

  /** The parts of a match, put together. */
  lemma IsMatchIntro(line: string, w: nat, q: nat, e: nat)
    requires w + |HeaderPrefix| <= q < e <= |line|
    requires AllSpaces(line[..w]) && HeaderPrefix <= line[w..]
    requires forall i :: w + |HeaderPrefix| <= i < q ==> !IsLineTerminator(line[i])
    requires line[q] == ']' && AllSpaces(line[q + 1..e])
    ensures IsMatch(line, w, q, e) && line[w] == '['
  {
    assert line[w..w + |HeaderPrefix|] == HeaderPrefix by {
      assert line[w..][..|HeaderPrefix|] == line[w..w + |HeaderPrefix|];
    }
    assert line[w] == '[' by { assert line[w..w + |HeaderPrefix|][0] == line[w]; }
  }

  /** `trim().slice(7, -1)` of an indented, whitespace-padded `[tests.<name>]` gives `<name>`. */
  lemma HeaderName(line: string, w: nat, q: nat, len: nat)
    requires w + |HeaderPrefix| <= q < len <= |line|
    requires AllSpaces(line[..w]) && line[w] == '[' && line[q] == ']' && AllSpaces(line[q + 1..len])
    ensures JsSlice(Trim(line[..len]), 7, -1) == line[w + |HeaderPrefix|..q]
  {
    var b := line[w..q + 1];
    assert line[..len] == line[..w] + b + line[q + 1..len];
    TrimPadded(line[..w], b, line[q + 1..len]);
    assert JsSlice(b, 7, -1) == b[7..|b| - 1];
    assert |HeaderPrefix| == 7;
    SliceOfSlice(line, w, q + 1, 7, |b| - 1);
  }

  lemma SliceOfSlice<T>(s: seq<T>, i: nat, j: nat, k: nat, l: nat)
    requires i <= j <= |s| && k <= l <= j - i
    ensures s[i..j][k..l] == s[i + k..i + l]
  {
    var a, b := s[i..j][k..l], s[i + k..i + l];
    assert |a| == |b|;
    forall n | 0 <= n < |a| ensures a[n] == b[n] {
      assert a[n] == s[i..j][k + n];
    }
  }

  /** The `onTest` call for header line `lineNo`: range (lineNo, 0)-(lineNo, match length). */
  function HeaderEvent(lineNo: nat, hit: HeaderHit, tests: Value): TestEvent {
    TestEvent(Range(Position(lineNo, 0), Position(lineNo, hit.length)), hit.name, Member(tests, hit.name))
  }

  /** The header match of every line, in line order. */
  function HeaderHits(lines: seq<string>): (hits: seq<Option<HeaderHit>>)
    ensures |hits| == |lines|
    ensures forall n :: 0 <= n < |lines| ==> hits[n] == Header(lines[n])
  {
    seq(|lines|, n requires 0 <= n < |lines| => Header(lines[n]))
  }

  /** The `onTest` calls for the lines whose header matches are `hits`: one per header line, in
      line order, and no others. */
  function Scan(hits: seq<Option<HeaderHit>>, tests: Value): (r: seq<TestEvent>)
    ensures forall k :: 0 <= k < |r| ==>
      var n := r[k].range.start.line;
      n < |hits| && hits[n].Some? && r[k] == HeaderEvent(n, hits[n].value, tests)
    ensures forall k :: 0 <= k < |r| - 1 ==> r[k].range.start.line < r[k + 1].range.start.line
    ensures forall n :: 0 <= n < |hits| && hits[n].Some? ==> exists k :: 0 <= k < |r| && r[k].range.start.line == n
    decreases |hits|
  {
    if |hits| == 0 then []
    else
      var n := |hits| - 1;
      var before := Scan(hits[..n], tests);
      assert forall i :: 0 <= i < n ==> hits[..n][i] == hits[i];
      match hits[n]
      case None => before
      case Some(h) =>
        var r := before + [HeaderEvent(n, h, tests)];
        assert forall k :: 0 <= k < |before| ==> r[k] == before[k];
        assert r[|r| - 1].range.start.line == n;
        r
  }

  /** The `[config]` table, if the document has one. */
  function ConfigOf(doc: Entries): Option<Entries> {
    match Lookup(doc, "config")
    case Some(Table(config)) => Some(config)
    case _ => None
  }

  /** The diagnostics of the `[config]` table: one per missing variable, then one per unknown one. */
  function ConfigDiagnostics(config: Entries): (r: seq<Diagnostic>)
    ensures MissingConfigSection !in r && MissingTestsSection !in r
    ensures forall a :: MissingConfigVar(a) in r <==> a in ConfigArgs && a !in Keys(config)
    ensures forall a :: UnknownConfigVar(a) in r <==> a in Keys(config) && a !in ConfigArgs
  {
    MissingConfigVars(Keys(config)) + UnknownConfigVars(Keys(config))
  }

  /** `parseTestsFile(text, events)`, given `parsed`, what `toml.parse(text)` returned (`None`: it
      threw), and `prior`, the exports before the call. */
  function ParseTestsFile(text: string, parsed: Option<Entries>, prior: Exports): (r: ParseRun)
    ensures r.threw ==> r.events == []
    ensures !r.threw <==> parsed.Some? && ConfigOf(parsed.value).Some? && "tests" in Keys(parsed.value)
    ensures !r.threw ==> r.events == Scan(HeaderHits(Split(text, '\n')), Lookup(parsed.value, "tests").value)
  {
    match parsed
    case None => ParseRun([], prior, [], true)
    case Some(doc) =>
      var noConfig := if "config" in Keys(doc) then [] else [MissingConfigSection];
      match ConfigOf(doc)
      case None => ParseRun(noConfig, prior, [], true)
      case Some(config) =>
        var exports := Exports(Lookup(config, "exec"), Lookup(config, "ref_exec"), Lookup(config, "build_target"));
        match Lookup(doc, "tests")
        case None => ParseRun(ConfigDiagnostics(config) + [MissingTestsSection], exports, [], true)
        case Some(tests) =>
          var testDiags := if tests.Table? then UnknownTestVars(tests.entries) else [];
          ParseRun(ConfigDiagnostics(config) + testDiags, exports, Scan(HeaderHits(Split(text, '\n')), tests), false)
  }

  /** When the parse or the `[config]` lookup fails nothing is exported and nothing is reported;
      a missing `[config]` is reported first. */
  lemma ParseStopsWithoutConfig(text: string, parsed: Option<Entries>, prior: Exports)
    requires parsed.None? || ConfigOf(parsed.value).None?
    ensures var r := ParseTestsFile(text, parsed, prior);
      && r.threw && r.events == [] && r.exports == prior
      && (parsed.None? ==> r.diagnostics == [])
      && (parsed.Some? ==> (r.diagnostics == [MissingConfigSection] <==> "config" !in Keys(parsed.value)))
      && (parsed.Some? ==> (r.diagnostics == [] <==> "config" in Keys(parsed.value)))
  {
  }

  /** Once `[config]` is a table, its three variables are exported (missing ones as `undefined`),
      each missing or unknown variable is reported, and a missing `[tests]` is reported and stops
      the scan. */
  lemma ParseReportsConfig(text: string, parsed: Option<Entries>, prior: Exports)
    requires parsed.Some? && ConfigOf(parsed.value).Some?
    ensures var r := ParseTestsFile(text, parsed, prior);
      var doc := parsed.value;
      var config := ConfigOf(doc).value;
      && r.exports == Exports(Lookup(config, "exec"), Lookup(config, "ref_exec"), Lookup(config, "build_target"))
      && MissingConfigSection !in r.diagnostics
      && (forall a :: MissingConfigVar(a) in r.diagnostics <==> a in ConfigArgs && a !in Keys(config))
      && (forall a :: UnknownConfigVar(a) in r.diagnostics <==> a in Keys(config) && a !in ConfigArgs)
      && (MissingTestsSection in r.diagnostics <==> "tests" !in Keys(doc))
      && (Lookup(doc, "tests").Some? && Lookup(doc, "tests").value.Table? ==>
            forall t, a :: UnknownTestVar(t, a) in r.diagnostics <==> HasUnknownTestKey(Lookup(doc, "tests").value.entries, t, a))
  {
    var config := ConfigOf(parsed.value).value;
    match Lookup(parsed.value, "tests")
    case Some(Table(tests)) =>
      UnknownTestVarsExact(tests);
      var r := ParseTestsFile(text, parsed, prior);
      assert r.diagnostics == ConfigDiagnostics(config) + UnknownTestVars(tests);
      forall t, a ensures UnknownTestVar(t, a) !in ConfigDiagnostics(config) {
        assert UnknownTestVar(t, a) in MissingConfigVars(Keys(config)) ==> false;
        assert UnknownTestVar(t, a) in UnknownConfigVars(Keys(config)) ==> false;
      }
    case _ =>
  }
}
