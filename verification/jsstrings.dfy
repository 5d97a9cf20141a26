/** The JavaScript string and array primitives the extension relies on:
    `split` and `join` on a one-character separator, `includes`, `trim` and `slice`. */
module JsStrings {

  /** Characters matched by `\s` in a JavaScript regular expression and removed by
      `String.prototype.trim`: the ECMAScript WhiteSpace and LineTerminator sets. */
  predicate IsJsSpace(c: char) {
    || c == '\t' || c == '\n' || c == '\U{000B}' || c == '\U{000C}' || c == '\r' || c == ' '
    || c == '\U{00A0}' || c == '\U{1680}' || ('\U{2000}' <= c <= '\U{200A}')
    || c == '\U{2028}' || c == '\U{2029}' || c == '\U{202F}' || c == '\U{205F}'
    || c == '\U{3000}' || c == '\U{FEFF}'
  }

  /** Characters the regular-expression `.` does not match. */
  predicate IsLineTerminator(c: char) {
    c == '\n' || c == '\r' || c == '\U{2028}' || c == '\U{2029}'
  }

  predicate AllSpaces(s: string) {
    forall i :: 0 <= i < |s| ==> IsJsSpace(s[i])
  }

  /** Number of whitespace characters `s` starts with. */
  function LeadingSpaces(s: string): (n: nat)
    ensures n <= |s|
    ensures AllSpaces(s[..n])
    ensures n < |s| ==> !IsJsSpace(s[n])
  {
    if |s| == 0 || !IsJsSpace(s[0]) then 0
    else
      var k := LeadingSpaces(s[1..]);
      assert s[..k + 1] == [s[0]] + s[1..][..k];
      1 + k
  }

  /** Number of whitespace characters `s` ends with. */
  function TrailingSpaces(s: string): (n: nat)
    ensures n <= |s|
    ensures AllSpaces(s[|s| - n..])
    ensures n < |s| ==> !IsJsSpace(s[|s| - n - 1])
  {
    if |s| == 0 || !IsJsSpace(s[|s| - 1]) then 0
    else
      var p := s[..|s| - 1];
      var k := TrailingSpaces(p);
      assert s[|s| - k - 1..] == p[|p| - k..] + [s[|s| - 1]];
      1 + k
  }

  /** `s.trim()`: the text between the leading and the trailing whitespace. */
  function Trim(s: string): string
  {
    var t := s[LeadingSpaces(s)..];
    t[..|t| - TrailingSpaces(t)]
  }

  /** Trimming text padded with whitespace on both sides gives back the text. */
  lemma TrimPadded(a: string, b: string, c: string)
    requires AllSpaces(a) && AllSpaces(c)
    requires |b| > 0 && !IsJsSpace(b[0]) && !IsJsSpace(b[|b| - 1])
    ensures Trim(a + b + c) == b
  {
    var s := a + b + c;
    LeadingOfPadded(a, b + c);
    assert s == a + (b + c);
    assert s[LeadingSpaces(s)..] == b + c;
    TrailingOfPadded(b, c);
  }

  lemma {:induction false} LeadingOfPadded(a: string, t: string)
    requires AllSpaces(a)
    requires |t| > 0 && !IsJsSpace(t[0])
    ensures LeadingSpaces(a + t) == |a|
    decreases |a|
  {
    if |a| > 0 {
      assert (a + t)[1..] == a[1..] + t;
      LeadingOfPadded(a[1..], t);
    }
  }

  lemma {:induction false} TrailingOfPadded(t: string, c: string)
    requires AllSpaces(c)
    requires |t| > 0 && !IsJsSpace(t[|t| - 1])
    ensures TrailingSpaces(t + c) == |c|
    decreases |c|
  {
    if |c| > 0 {
      assert (t + c)[..|t + c| - 1] == t + c[..|c| - 1];
      TrailingOfPadded(t, c[..|c| - 1]);
    }
  }

  /** How `slice` reads an index: a negative one counts from the end; the result is clamped to [0, len]. */
  function SliceIndex(i: int, len: nat): (r: nat)
    ensures r <= len
    ensures 0 <= i <= len ==> r == i
    ensures i < 0 && -i <= len ==> r == len + i
  {
    if i < 0 then (if len + i < 0 then 0 else len + i)
    else if i > len then len
    else i
  }

  /** `s.slice(start, end)` on a string or an array. */
  function JsSlice<T>(s: seq<T>, start: int, end: int): (r: seq<T>)
    ensures |r| <= |s|
    ensures 0 <= start <= end <= |s| ==> r == s[start..end]
  {
    var from := SliceIndex(start, |s|);
    var to := SliceIndex(end, |s|);
    if from < to then s[from..to] else []
  }

  /** `s.includes(pat)`. */
  predicate Contains(s: string, pat: string)
    decreases |s|
  {
    pat <= s || (|s| > 0 && Contains(s[1..], pat))
  }

  /** `s.split(sep)` for a one-character separator: the pieces between separators, never none. */
  function Split(s: string, sep: char): (r: seq<string>)
    ensures |r| >= 1
    ensures forall i :: 0 <= i < |r| ==> sep !in r[i]
  {
    if |s| == 0 then [""]
    else
      var rest := Split(s[1..], sep);
      if s[0] == sep then [""] + rest
      else [[s[0]] + rest[0]] + rest[1..]
  }

  /** `parts.join(sep)`. */
  function Join(parts: seq<string>, sep: char): string
  {
    if |parts| == 0 then ""
    else if |parts| == 1 then parts[0]
    else parts[0] + [sep] + Join(parts[1..], sep)
  }

  /** Prefixing the first piece prefixes the joined text. */
  lemma JoinPrefixHead(p: string, parts: seq<string>, sep: char)
    requires |parts| >= 1
    ensures Join([p + parts[0]] + parts[1..], sep) == p + Join(parts, sep)
  {
    var q := [p + parts[0]] + parts[1..];
    if |parts| > 1 {
      assert q[1..] == parts[1..];
    }
  }

  /** Joining the pieces of a split gives back the text. */
  lemma {:induction false} JoinSplit(s: string, sep: char)
    ensures Join(Split(s, sep), sep) == s
    decreases |s|
  {
    if |s| > 0 {
      JoinSplit(s[1..], sep);
      var rest := Split(s[1..], sep);
      assert s == [s[0]] + s[1..];
      if s[0] == sep {
        assert ([""] + rest)[1..] == rest;
      } else {
        JoinPrefixHead([s[0]], rest, sep);
      }
    }
  }

  lemma {:induction false} SplitNoSep(s: string, sep: char)
    requires sep !in s
    ensures Split(s, sep) == [s]
    decreases |s|
  {
    if |s| > 0 {
      SplitNoSep(s[1..], sep);
      assert [s[0]] + s[1..] == s;
    }
  }

  /** A separator-free piece followed by the separator splits off as one piece. */
  lemma {:induction false} SplitAfterSep(a: string, b: string, sep: char)
    requires sep !in a
    ensures Split(a + [sep] + b, sep) == [a] + Split(b, sep)
    decreases |a|
  {
    var s := a + [sep] + b;
    if |a| == 0 {
      assert s[1..] == b;
    } else {
      assert s[1..] == a[1..] + [sep] + b;
      SplitAfterSep(a[1..], b, sep);
      assert [a[0]] + a[1..] == a;
    }
  }

  /** Splitting joined separator-free pieces gives back the pieces. */
  lemma {:induction false} SplitJoin(parts: seq<string>, sep: char)
    requires |parts| >= 1
    requires forall i :: 0 <= i < |parts| ==> sep !in parts[i]
    ensures Split(Join(parts, sep), sep) == parts
    decreases |parts|
  {
    if |parts| == 1 {
      SplitNoSep(parts[0], sep);
    } else {
      SplitJoin(parts[1..], sep);
      SplitAfterSep(parts[0], Join(parts[1..], sep), sep);
      assert parts == [parts[0]] + parts[1..];
    }
  }

  /** Joining a concatenation puts one separator between the two joins. */
  lemma {:induction false} JoinAppend(xs: seq<string>, ys: seq<string>, sep: char)
    requires |xs| >= 1 && |ys| >= 1
    ensures Join(xs + ys, sep) == Join(xs, sep) + [sep] + Join(ys, sep)
    decreases |xs|
  {
    if |xs| == 1 {
      assert (xs + ys)[1..] == ys;
    } else {
      assert (xs + ys)[1..] == xs[1..] + ys;
      JoinAppend(xs[1..], ys, sep);
    }
  }

  /** The last piece of `xs` glued to the first piece of `ys`: what concatenating two joins does to lines. */
  function Glue(xs: seq<string>, ys: seq<string>): seq<string>
    requires |xs| >= 1 && |ys| >= 1
  {
    xs[..|xs| - 1] + [xs[|xs| - 1] + ys[0]] + ys[1..]
  }

  /** Where the lines of `xs` and `ys` end up in their glued sequence. */
  lemma GlueAt(xs: seq<string>, ys: seq<string>)
    requires |xs| >= 1 && |ys| >= 1
    ensures var g := Glue(xs, ys);
      && |g| == |xs| + |ys| - 1
      && (forall i :: 0 <= i < |xs| - 1 ==> g[i] == xs[i])
      && g[|xs| - 1] == xs[|xs| - 1] + ys[0]
      && (forall i :: |xs| <= i < |g| ==> g[i] == ys[i - |xs| + 1])
  {
  }

  /** Where the elements of three sequences end up in their concatenation. */
  lemma ConcatAt<T>(a: seq<T>, b: seq<T>, c: seq<T>)
    ensures var r := a + b + c;
      && |r| == |a| + |b| + |c|
      && (forall i :: 0 <= i < |a| ==> r[i] == a[i])
      && (forall i :: |a| <= i < |a| + |b| ==> r[i] == b[i - |a|])
      && (forall i :: |a| + |b| <= i < |r| ==> r[i] == c[i - |a| - |b|])
  {
  }

  lemma {:induction false} JoinGlue(xs: seq<string>, ys: seq<string>, sep: char)
    requires |xs| >= 1 && |ys| >= 1
    ensures Join(xs, sep) + Join(ys, sep) == Join(Glue(xs, ys), sep)
    decreases |xs|
  {
    if |xs| == 1 {
      assert Glue(xs, ys) == [xs[0] + ys[0]] + ys[1..];
      JoinPrefixHead(xs[0], ys, sep);
    } else {
      JoinGlue(xs[1..], ys, sep);
      assert Glue(xs, ys) == [xs[0]] + Glue(xs[1..], ys);
      assert Glue(xs, ys)[1..] == Glue(xs[1..], ys);
    }
  }

  /** `a` occurs in `b` in order, possibly with gaps. */
  ghost predicate IsSubsequence<T>(a: seq<T>, b: seq<T>)
    decreases |b|
  {
    |a| == 0 || (|b| > 0 && ((a[0] == b[0] && IsSubsequence(a[1..], b[1..])) || IsSubsequence(a, b[1..])))
  }
}
