/** `generateDriver` of out/driverUtils.js: the C++ driver is its built-in template with one
    `#include` per header the queued tests come from, and one `{ "name", name }` pair per queued
    test spliced into the `tests` map. Writing the file is not modelled: the text is the result. */
module Driver {
  import opened Wrappers
  import opened JsStrings
  import opened Catalog

  /** The template, already split on newlines. */
  const Template: seq<string> := [
    "",
    "    /*",
    "    unit_test_driver.cpp",
    "    Matt Russell",
    "    COMP15 2020 Summer",
    "    Updated 12/16/2020",
    "",
    "    This file is used as the driver for unit testing.",
    "",
    "    The 'tests' map will be auto-populated in the form:",
    "",
    "        { \"test_name\", test_name }",
    "",
    "    Where \"test_name\" maps to the associated test function in unit_tests.h.",
    "    */",
    "",
    "    #include <map>",
    "    #include <string>",
    "    #include <iostream>",
    "    #include \"unit_tests.h\"",
    "",
    "    typedef void (*FnPtr)();",
    "",
    "    int main(int argc, char **argv) {",
    "",
    "        /* will be filled in by the unit_test script */",
    "        std::map<std::string, FnPtr> tests {",
    "",
    "        };",
    "",
    "        /* first argument to main() is the string of a test function name */",
    "        if (argc <= 1) {",
    "            std::cout << \"No test function specified. Quitting\" << std::endl;",
    "            return 1;",
    "        }",
    "",
    "        /* extract the associated fn pointer from \"tests\", and run the test */",
    "        FnPtr fn = tests[argv[1]];",
    "        fn();",
    "",
    "        return 0;",
    "    }"
  ]

  const IncludeMarker: string := "#include \"unit_tests.h\""
  const MapOpener: string := "std::map<std::string, FnPtr> tests {"
  const HeaderSuffix: string := ".h"

  /** Each text followed by a newline, concatenated: what a loop of `+= line + "\n"` builds. */
  function Lines(xs: seq<string>): string
    decreases |xs|
  {
    if |xs| == 0 then "" else xs[0] + "\n" + Lines(xs[1..])
  }

  /** Newline-terminated lines followed by joined lines are the joined lines of both. */
  lemma {:induction false} LinesJoin(xs: seq<string>, rest: seq<string>)
    requires |rest| >= 1
    ensures Lines(xs) + Join(rest, '\n') == Join(xs + rest, '\n')
    decreases |xs|
  {
    if |xs| > 0 {
      LinesJoin(xs[1..], rest);
      assert (xs + rest)[1..] == xs[1..] + rest;
      assert (xs + rest)[0] == xs[0];
    } else {
      assert xs + rest == rest;
    }
  }

  /** The map entry for one test, without its newline. */
  function PairLine(name: string): string {
    "\t{ \"" + name + "\", " + name + " },"
  }

  /** One map entry per queued test, in queue order. */
  function PairLines(queue: seq<Queued>): (r: seq<string>)
    ensures |r| == |queue|
    ensures forall i :: 0 <= i < |queue| ==> r[i] == PairLine(queue[i].tc.Label())
  {
    seq(|queue|, i requires 0 <= i < |queue| => PairLine(queue[i].tc.Label()))
  }

  /** The first piece that contains `pat`, if any. */
  function FirstWith(pieces: seq<string>, pat: string): (r: Option<string>)
    ensures r.None? <==> forall i :: 0 <= i < |pieces| ==> !Contains(pieces[i], pat)
    ensures r.Some? ==> exists i :: 0 <= i < |pieces| && pieces[i] == r.value && Contains(r.value, pat)
                                   && forall j :: 0 <= j < i ==> !Contains(pieces[j], pat)
  {
    if |pieces| == 0 then None
    else if Contains(pieces[0], pat) then Some(pieces[0])
    else
      var r := FirstWith(pieces[1..], pat);
      assert forall i :: 1 <= i < |pieces| ==> pieces[1..][i - 1] == pieces[i];
      assert r.Some? ==> exists i :: 0 <= i < |pieces| && pieces[i] == r.value && Contains(r.value, pat)
                                     && forall j :: 0 <= j < i ==> !Contains(pieces[j], pat) by {
        if r.Some? {
          var i :| 0 <= i < |pieces[1..]| && pieces[1..][i] == r.value && Contains(r.value, pat)
                   && forall j :: 0 <= j < i ==> !Contains(pieces[1..][j], pat);
          assert pieces[i + 1] == r.value;
          assert forall j :: 1 <= j < i + 1 ==> !Contains(pieces[j], pat);
        }
      }
      r
  }

  /** The header a test comes from: the first `/`-separated piece of its id that contains `.h`
      (`None` is `undefined`, when there is none). */
  function ParentFile(id: string): Option<string> {
    FirstWith(Split(id, '/'), HeaderSuffix)
  }

  /** The parent header of each queued test, in queue order. */
  function Parents(queue: seq<Queued>): (r: seq<Option<string>>)
    ensures |r| == |queue|
    ensures forall i :: 0 <= i < |queue| ==> r[i] == ParentFile(queue[i].test.id)
  {
    seq(|queue|, i requires 0 <= i < |queue| => ParentFile(queue[i].test.id))
  }

  /** Where `x` first occurs in `xs`. */
  function FirstIndex<T(==)>(xs: seq<T>, x: T): (i: nat)
    requires x in xs
    ensures i < |xs| && xs[i] == x && x !in xs[..i]
  {
    if xs[0] == x then 0 else 1 + FirstIndex(xs[1..], x)
  }

  /** Where `x` first occurs in a prefix of `xs` is where it first occurs in `xs`. */
  lemma FirstIndexPrefix<T>(xs: seq<T>, n: nat, x: T)
    requires n <= |xs| && x in xs[..n]
    ensures x in xs && FirstIndex(xs[..n], x) == FirstIndex(xs, x)
  {
    var i := FirstIndex(xs[..n], x);
    var k := FirstIndex(xs, x);
    assert xs[..n][..i] == xs[..i];
    assert forall j :: 0 <= j < i ==> xs[..i][j] == xs[j];
    assert forall j :: 0 <= j < k ==> xs[..k][j] == xs[j];
  }

  /** The elements of `xs` without repeats, each where it first occurs: the loop that pushes an
      element only if the list does not include it yet. */
  function Dedup<T(==, !new)>(xs: seq<T>): (r: seq<T>)
    ensures forall x :: x in r <==> x in xs
    ensures forall i, j :: 0 <= i < j < |r| ==> r[i] != r[j]
    decreases |xs|
  {
    if |xs| == 0 then []
    else
      var n := |xs| - 1;
      var d := Dedup(xs[..n]);
      assert forall x :: x in xs <==> x in xs[..n] || x == xs[n] by {
        assert xs == xs[..n] + [xs[n]];
      }
      if xs[n] in d then d else d + [xs[n]]
  }

  /** The elements of `Dedup(xs)` come in the order of their first occurrences in `xs`. */
  lemma {:induction false} DedupOrder<T(!new)>(xs: seq<T>)
    ensures forall i, j :: 0 <= i < j < |Dedup(xs)| ==> FirstIndex(xs, Dedup(xs)[i]) < FirstIndex(xs, Dedup(xs)[j])
    decreases |xs|
  {
    if |xs| > 0 {
      var n := |xs| - 1;
      var d := Dedup(xs[..n]);
      DedupOrder(xs[..n]);
      assert xs == xs[..n] + [xs[n]];
      forall i | 0 <= i < |d| ensures FirstIndex(xs[..n], d[i]) == FirstIndex(xs, d[i]) {
        FirstIndexPrefix(xs, n, d[i]);
      }
      if xs[n] !in d {
        assert FirstIndex(xs, xs[n]) == n;
      }
    }
  }

  /** The `#include` line for a parent header; `undefined` prints as such. */
  function IncludeLine(file: Option<string>): string {
    "    #include \"" + (match file case Some(f) => f case None => "undefined") + "\""
  }

  function IncludeLines(files: seq<Option<string>>): (r: seq<string>)
    ensures |r| == |files|
    ensures forall i :: 0 <= i < |files| ==> r[i] == IncludeLine(files[i])
  {
    seq(|files|, i requires 0 <= i < |files| => IncludeLine(files[i]))
  }

  /** The index of the last line that contains `pat`, or -1. */
  function LastLineWith(lines: seq<string>, pat: string): (r: int)
    ensures -1 <= r < |lines|
    ensures r >= 0 ==> Contains(lines[r], pat)
    decreases |lines|
  {
    if |lines| == 0 then -1
    else if Contains(lines[|lines| - 1], pat) then |lines| - 1
    else LastLineWith(lines[..|lines| - 1], pat)
  }

  /** No line after the one `LastLineWith` finds contains the pattern. */
  lemma {:induction false} LastLineWithIsLast(lines: seq<string>, pat: string)
    ensures forall j :: LastLineWith(lines, pat) < j < |lines| ==> !Contains(lines[j], pat)
    decreases |lines|
  {
    if |lines| > 0 && !Contains(lines[|lines| - 1], pat) {
      var n := |lines| - 1;
      LastLineWithIsLast(lines[..n], pat);
      assert forall j :: 0 <= j < n ==> lines[..n][j] == lines[j];
    }
  }

  /** The driver text: the template up to `ins`, the include lines, the template from `ins + skip`
      up to `second`, the pairs, and the rest of the template. */
  function Assemble(t: seq<string>, ins: int, skip: nat, second: int, files: seq<Option<string>>,
                    queue: seq<Queued>): string
  {
    var firstPart := Join(JsSlice(t, 0, ins), '\n') + "\n" + Lines(IncludeLines(files))
      + Join(JsSlice(t, ins + skip, second), '\n');
    firstPart + Lines(PairLines(queue)) + Join(JsSlice(t, second, |t|), '\n')
  }

  /** Where the template resumes after the include lines. `AsWritten`: one line further on for
      every distinct header, so the include lines overwrite the marker and the template lines
      after it. `MarkerOnly`: the include lines take the place of the marker line alone. */
  datatype Resume = AsWritten | MarkerOnly

  /** How many template lines from the marker on the include lines replace. */
  function Skip(resume: Resume, files: seq<Option<string>>): (n: nat)
    ensures resume.AsWritten? ==> n == |files|
    ensures resume.MarkerOnly? ==> n <= 1 && (n == 0 <==> |files| == 0)
  {
    match resume
    case AsWritten => |files|
    case MarkerOnly => if |files| == 0 then 0 else 1
  }

  /** `generateDriver(queue)` on the template `t` with the given markers: `None` (the promise
      resolves to `null`) when no line holds the map opener. */
  function Splice(t: seq<string>, queue: seq<Queued>, marker: string, mapOpener: string, resume: Resume)
    : (r: Option<string>)
    ensures r.None? <==> forall i :: 0 <= i < |t| ==> !Contains(t[i], mapOpener)
  {
    LastLineWithIsLast(t, mapOpener);
    var files := Dedup(Parents(queue));
    var ins := LastLineWith(t, marker);
    var opener := LastLineWith(t, mapOpener);
    if opener == -1 then None else Some(Assemble(t, ins, Skip(resume, files), opener + 1, files, queue))
  }

  /** `generateDriver(queue)`, with the include lines replacing the marker line only. */
  function GenerateDriver(queue: seq<Queued>): Option<string> {
    Splice(Template, queue, IncludeMarker, MapOpener, MarkerOnly)
  }

  /** `generateDriver(queue)` as written. */
  function GenerateDriverAsWritten(queue: seq<Queued>): Option<string> {
    Splice(Template, queue, IncludeMarker, MapOpener, AsWritten)
  }

  /** The driver is missing exactly when no template line holds the map opener. */
  lemma SpliceNone(t: seq<string>, queue: seq<Queued>, marker: string, mapOpener: string, resume: Resume)
    ensures Splice(t, queue, marker, mapOpener, resume).None? <==> forall j :: 0 <= j < |t| ==> !Contains(t[j], mapOpener)
  {
    LastLineWithIsLast(t, mapOpener);
  }

  /** No text of `xs` holds a newline. */
  predicate Unbroken(xs: seq<string>) {
    forall i :: 0 <= i < |xs| ==> '\n' !in xs[i]
  }

  /** The pieces of a text lack every character the text lacks. */
  lemma {:induction false} SplitPiecesLack(s: string, sep: char, c: char)
    requires c !in s
    ensures forall i :: 0 <= i < |Split(s, sep)| ==> c !in Split(s, sep)[i]
    decreases |s|
  {
    if |s| > 0 {
      assert forall x :: x in s[1..] ==> x in s;
      SplitPiecesLack(s[1..], sep, c);
    }
  }

  /** The include line for the header of an id without a newline has none either. */
  lemma ParentUnbroken(id: string)
    requires '\n' !in id
    ensures '\n' !in IncludeLine(ParentFile(id))
  {
    var file := ParentFile(id);
    if file.Some? {
      SplitPiecesLack(id, '/', '\n');
    }
  }

  /** The include lines of a queue whose ids have no newline have none either. */
  lemma IncludesUnbroken(queue: seq<Queued>)
    requires forall i :: 0 <= i < |queue| ==> '\n' !in queue[i].test.id
    ensures Unbroken(IncludeLines(Dedup(Parents(queue))))
  {
    var parents := Parents(queue);
    var files := Dedup(parents);
    forall i | 0 <= i < |files| ensures '\n' !in IncludeLine(files[i]) {
      assert files[i] in parents;
      var k :| 0 <= k < |parents| && parents[k] == files[i];
      ParentUnbroken(queue[k].test.id);
    }
  }

  /** The text algebra behind the driver: joined lines, a newline, newline-terminated lines,
      joined lines, newline-terminated lines and joined lines make one joined sequence, in which
      the last of `b` and the first line after it share a line. */
  lemma SpliceText(a: seq<string>, inc: seq<string>, b: seq<string>, p: seq<string>, c: seq<string>)
    requires |a| >= 1 && |b| >= 1 && |c| >= 1
    ensures Join(a, '\n') + "\n" + Lines(inc) + Join(b, '\n') + Lines(p) + Join(c, '\n')
         == Join(a + inc + Glue(b, p + c), '\n')
  {
    var g := Glue(b, p + c);
    calc {
      Join(a, '\n') + "\n" + Lines(inc) + Join(b, '\n') + Lines(p) + Join(c, '\n');
      == { Regroup(Join(a, '\n'), "\n", Lines(inc), Join(b, '\n'), Lines(p), Join(c, '\n')); }
      Join(a, '\n') + "\n" + (Lines(inc) + (Join(b, '\n') + (Lines(p) + Join(c, '\n'))));
      == { LinesJoin(p, c); }
      Join(a, '\n') + "\n" + (Lines(inc) + (Join(b, '\n') + Join(p + c, '\n')));
      == { JoinGlue(b, p + c, '\n'); }
      Join(a, '\n') + "\n" + (Lines(inc) + Join(g, '\n'));
      == { LinesJoin(inc, g); }
      Join(a, '\n') + "\n" + Join(inc + g, '\n');
      == { JoinAppend(a, inc + g, '\n'); }
      Join(a + (inc + g), '\n');
      == { ConcatAssoc(a, inc, g); }
      Join(a + inc + g, '\n');
    }
  }

  lemma Regroup(u: string, v: string, w: string, x: string, y: string, z: string)
    ensures u + v + w + x + y + z == u + v + (w + (x + (y + z)))
  {
  }

  /** Gluing unbroken lines keeps them unbroken. */
  lemma GlueUnbroken(xs: seq<string>, ys: seq<string>)
    requires |xs| >= 1 && |ys| >= 1 && Unbroken(xs) && Unbroken(ys)
    ensures Unbroken(Glue(xs, ys))
  {
    var g := Glue(xs, ys);
    forall i | 0 <= i < |g| ensures '\n' !in g[i] {
      if i < |xs| - 1 {
        assert g[i] == xs[i];
      } else if i == |xs| - 1 {
        assert g[i] == xs[|xs| - 1] + ys[0];
      } else {
        assert g[i] == ys[i - |xs| + 1];
      }
    }
  }

  /** The pieces the driver takes from an unbroken template are unbroken. */
  lemma SlicesUnbroken(t: seq<string>, i: nat, j: nat, k: nat)
    requires i <= j <= k <= |t| && Unbroken(t)
    ensures Unbroken(t[..i]) && Unbroken(t[j..k]) && Unbroken(t[k..])
  {
    forall n | 0 <= n < i ensures '\n' !in t[..i][n] {
      assert t[..i][n] == t[n];
    }
    forall n | 0 <= n < k - j ensures '\n' !in t[j..k][n] {
      assert t[j..k][n] == t[j + n];
    }
    forall n | 0 <= n < |t| - k ensures '\n' !in t[k..][n] {
      assert t[k..][n] == t[k + n];
    }
  }

  /** The driver's lines are unbroken when its parts are. */
  lemma PartsUnbroken(a: seq<string>, inc: seq<string>, b: seq<string>, p: seq<string>, c: seq<string>)
    requires |b| >= 1 && |c| >= 1
    requires Unbroken(a) && Unbroken(inc) && Unbroken(b) && Unbroken(p) && Unbroken(c)
    ensures Unbroken(a + inc + Glue(b, p + c))
  {
    GlueUnbroken(b, p + c);
  }

  /** The lines a driver is meant to have: the template before the marker, the include lines,
      then the template from `ins + skip` on, with the pairs spliced in after line `second - 1` and
      the first of them (or, with no pairs, the next template line) glued onto that line, since the
      template part ends without a newline. */
  function Layout(t: seq<string>, ins: int, skip: nat, second: int, files: seq<Option<string>>,
                  queue: seq<Queued>): seq<string>
    requires 1 <= ins && ins + skip < second < |t|
  {
    t[..ins] + IncludeLines(files) + Glue(t[ins + skip..second], PairLines(queue) + t[second..])
  }

  /** The layout has the template lines before the marker, then the include lines, then the
      template lines from `ins + skip` on, all but the one the first pair (or next template line)
      is glued to at their places, with one line per pair in between. */
  lemma LayoutKeeps(t: seq<string>, ins: int, skip: nat, second: int, files: seq<Option<string>>,
                    queue: seq<Queued>)
    requires 1 <= ins && ins + skip < second < |t|
    ensures var r := Layout(t, ins, skip, second, files, queue);
            |r| == |t| - skip + |files| + |queue| - 1
            && r[..ins] == t[..ins]
            && (forall i :: 0 <= i < |files| ==> r[ins + i] == IncludeLine(files[i]))
            && (forall i :: ins + skip <= i < second - 1 ==> r[i - skip + |files|] == t[i])
            && (forall i :: second < i < |t| ==> r[i - 1 - skip + |files| + |queue|] == t[i])
            && r[second - 1 - skip + |files|] == t[second - 1] + (PairLines(queue) + t[second..])[0]
            && (forall i :: 1 <= i < |queue| ==> r[second - 1 - skip + |files| + i] == PairLine(queue[i].tc.Label()))
  {
    LayoutHead(t, ins, skip, second, files, queue);
    LayoutMiddle(t, ins, skip, second, files, queue);
    LayoutTail(t, ins, skip, second, files, queue);
    LayoutPairs(t, ins, skip, second, files, queue);
  }

  lemma LayoutHead(t: seq<string>, ins: int, skip: nat, second: int, files: seq<Option<string>>,
                   queue: seq<Queued>)
    requires 1 <= ins && ins + skip < second < |t|
    ensures var r := Layout(t, ins, skip, second, files, queue);
            && |r| == |t| - skip + |files| + |queue| - 1
            && r[..ins] == t[..ins]
            && (forall i :: 0 <= i < |files| ==> r[ins + i] == IncludeLine(files[i]))
  {
    var a, inc, b, pc := t[..ins], IncludeLines(files), t[ins + skip..second], PairLines(queue) + t[second..];
    var g := Glue(b, pc);
    GlueAt(b, pc);
    var r := a + inc + g;
    assert r == Layout(t, ins, skip, second, files, queue);
    assert r[..ins] == a;
    forall i | 0 <= i < |files| ensures r[ins + i] == IncludeLine(files[i]) {
      assert r[ins + i] == inc[i];
    }
  }

  lemma LayoutMiddle(t: seq<string>, ins: int, skip: nat, second: int, files: seq<Option<string>>,
                     queue: seq<Queued>)
    requires 1 <= ins && ins + skip < second < |t|
    ensures var r := Layout(t, ins, skip, second, files, queue);
            forall i :: ins + skip <= i < second - 1 ==> r[i - skip + |files|] == t[i]
  {
    var a, inc, b, pc := t[..ins], IncludeLines(files), t[ins + skip..second], PairLines(queue) + t[second..];
    var g := Glue(b, pc);
    GlueAt(b, pc);
    var r := a + inc + g;
    assert r == Layout(t, ins, skip, second, files, queue);
    forall i | ins + skip <= i < second - 1 ensures r[i - skip + |files|] == t[i] {
      assert r[i - skip + |files|] == g[i - skip - ins] == b[i - skip - ins];
    }
  }

  lemma LayoutTail(t: seq<string>, ins: int, skip: nat, second: int, files: seq<Option<string>>,
                   queue: seq<Queued>)
    requires 1 <= ins && ins + skip < second < |t|
    ensures var r := Layout(t, ins, skip, second, files, queue);
            forall i :: second < i < |t| ==> r[i - 1 - skip + |files| + |queue|] == t[i]
  {
    var a, inc, b, pc := t[..ins], IncludeLines(files), t[ins + skip..second], PairLines(queue) + t[second..];
    var g := Glue(b, pc);
    GlueAt(b, pc);
    var r := a + inc + g;
    assert r == Layout(t, ins, skip, second, files, queue);
    forall i | second < i < |t| ensures r[i - 1 - skip + |files| + |queue|] == t[i] {
      var k := i - 1 - skip + |files| + |queue|;
      var j := k - ins - |files|;
      assert r[k] == g[j];
      assert g[j] == pc[j - |b| + 1];
      assert pc[j - |b| + 1] == t[second..][i - second];
    }
  }

  /** The first pair (or, with no pairs, the next template line) is glued onto the map opener's
      line, and every further pair has a line of its own right after it. */
  lemma LayoutPairs(t: seq<string>, ins: int, skip: nat, second: int, files: seq<Option<string>>,
                    queue: seq<Queued>)
    requires 1 <= ins && ins + skip < second < |t|
    ensures var r := Layout(t, ins, skip, second, files, queue);
            && r[second - 1 - skip + |files|] == t[second - 1] + (PairLines(queue) + t[second..])[0]
            && (forall i :: 1 <= i < |queue| ==> r[second - 1 - skip + |files| + i] == PairLine(queue[i].tc.Label()))
  {
    var p, b, pc := t[..ins] + IncludeLines(files), t[ins + skip..second], PairLines(queue) + t[second..];
    PrefixedGlue(p, b, pc);
    assert |p| + |b| - 1 == second - 1 - skip + |files|;
    assert b[|b| - 1] == t[second - 1];
    forall i | 1 <= i < |queue| ensures pc[i] == PairLine(queue[i].tc.Label()) {
      assert pc[i] == PairLines(queue)[i];
    }
  }

  /** Lines glued onto a block that follows a prefix: the join is the block's last line, and the
      glued lines after the first follow it one per line. */
  lemma PrefixedGlue(p: seq<string>, b: seq<string>, pc: seq<string>)
    requires |b| >= 1 && |pc| >= 1
    ensures var r := p + Glue(b, pc);
            && r[|p| + |b| - 1] == b[|b| - 1] + pc[0]
            && (forall j :: 1 <= j < |pc| ==> r[|p| + |b| - 1 + j] == pc[j])
  {
    GlueAt(b, pc);
  }

  /** The lines of an assembled driver are its layout. */
  lemma AssembleLines(t: seq<string>, ins: int, skip: nat, second: int, files: seq<Option<string>>,
                      queue: seq<Queued>)
    requires 1 <= ins && ins + skip < second < |t|
    requires Unbroken(t) && Unbroken(IncludeLines(files)) && Unbroken(PairLines(queue))
    ensures Split(Assemble(t, ins, skip, second, files, queue), '\n') == Layout(t, ins, skip, second, files, queue)
  {
    var a, inc, b, p, c := t[..ins], IncludeLines(files), t[ins + skip..second], PairLines(queue), t[second..];
    assert JsSlice(t, 0, ins) == a && JsSlice(t, ins + skip, second) == b && JsSlice(t, second, |t|) == c;
    SpliceText(a, inc, b, p, c);
    assert Assemble(t, ins, skip, second, files, queue) == Join(a + inc + Glue(b, p + c), '\n');
    SlicesUnbroken(t, ins, ins + skip, second);
    PartsUnbroken(a, inc, b, p, c);
    SplitJoin(a + inc + Glue(b, p + c), '\n');
    assert Layout(t, ins, skip, second, files, queue) == a + inc + Glue(b, p + c);
  }

  /** Neither ids nor labels of the queue hold a newline. */
  predicate QueueUnbroken(queue: seq<Queued>) {
    forall i :: 0 <= i < |queue| ==> '\n' !in queue[i].test.id && '\n' !in queue[i].tc.Label()
  }

  lemma PairsUnbroken(queue: seq<Queued>)
    requires QueueUnbroken(queue)
    ensures Unbroken(PairLines(queue))
  {
    var p := PairLines(queue);
    forall i | 0 <= i < |p| ensures '\n' !in p[i] {
      assert p[i] == "\t{ \"" + queue[i].tc.Label() + "\", " + queue[i].tc.Label() + " },";
    }
  }

  /** With tests from two or more headers, the driver as written loses template lines: whatever
      the number of headers it has one line fewer than the template and the pairs together, which
      is `|files| - 1` lines fewer than the driver that replaces the marker only, and the template
      lines between the marker and line `ins + |files|` are gone. In the built-in template, a third
      header drops the `typedef` of `FnPtr` that the map needs. */
  lemma AsWrittenDropsTemplateLines(t: seq<string>, ins: int, second: int, files: seq<Option<string>>,
                                    queue: seq<Queued>)
    requires Unbroken(t) && Unbroken(IncludeLines(files)) && Unbroken(PairLines(queue))
    requires 1 <= ins && ins + |files| + 1 < second < |t|
    requires |files| >= 2
    ensures |Split(Assemble(t, ins, Skip(AsWritten, files), second, files, queue), '\n')| == |t| + |queue| - 1
    ensures |Split(Assemble(t, ins, Skip(AsWritten, files), second, files, queue), '\n')| + |files| - 1
         == |Split(Assemble(t, ins, Skip(MarkerOnly, files), second, files, queue), '\n')|
    ensures Split(Assemble(t, ins, Skip(AsWritten, files), second, files, queue), '\n')[ins + |files|]
         == t[ins + |files|]
    ensures Split(Assemble(t, ins, Skip(MarkerOnly, files), second, files, queue), '\n')[ins + |files|]
         == t[ins + 1]
  {
    AssembleLines(t, ins, |files|, second, files, queue);
    LayoutKeeps(t, ins, |files|, second, files, queue);
    AssembleLines(t, ins, 1, second, files, queue);
    LayoutKeeps(t, ins, 1, second, files, queue);
  }
}
