/** The pieces of Python's `str` API that the modelled code relies on:
    character classes, case mapping, `strip`, `split`, `splitlines`,
    `join`, `find`, `startswith` and the decimal rendering of an `int`.

    Character classes and case mapping follow Python for ASCII characters;
    every other character is treated as a non-space, non-alphanumeric
    character that case mapping leaves alone. */
module Text {
  import opened Wrappers

  // ---------------------------------------------------------------------
  // Character classes
  // ---------------------------------------------------------------------

  /** `str.isspace` restricted to ASCII (it includes the four separators 0x1C-0x1F). */
  predicate IsSpace(c: char) {
    c == ' ' || c == '\t' || c == '\n' || c == '\r' || c == '\U{B}' || c == '\U{C}'
    || c == '\U{1C}' || c == '\U{1D}' || c == '\U{1E}' || c == '\U{1F}'
  }

  predicate IsDigit(c: char) { '0' <= c <= '9' }
  predicate IsUpper(c: char) { 'A' <= c <= 'Z' }
  predicate IsLower(c: char) { 'a' <= c <= 'z' }
  predicate IsAlpha(c: char) { IsUpper(c) || IsLower(c) }
  predicate IsAlnum(c: char) { IsAlpha(c) || IsDigit(c) }

  /** The characters at which `str.splitlines` breaks a line. */
  predicate IsLineBreak(c: char) {
    c == '\n' || c == '\r' || c == '\U{B}' || c == '\U{C}' || c == '\U{1C}'
    || c == '\U{1D}' || c == '\U{1E}' || c == '\U{85}' || c == '\U{2028}' || c == '\U{2029}'
  }

  function LowerChar(c: char): (r: char)
    ensures IsUpper(c) ==> IsLower(r)
    ensures !IsUpper(c) ==> r == c
  {
    if IsUpper(c) then (c as int - 'A' as int + 'a' as int) as char else c
  }

  function UpperChar(c: char): (r: char)
    ensures IsLower(c) ==> IsUpper(r)
    ensures !IsLower(c) ==> r == c
  {
    if IsLower(c) then (c as int - 'a' as int + 'A' as int) as char else c
  }

  predicate AllDigits(s: string) { forall i :: 0 <= i < |s| ==> IsDigit(s[i]) }
  predicate NoSpace(s: string) { forall i :: 0 <= i < |s| ==> !IsSpace(s[i]) }
  predicate AllSpace(s: string) { forall i :: 0 <= i < |s| ==> IsSpace(s[i]) }

  /** `str.lower` */
  function Lower(s: string): (r: string)
    ensures |r| == |s|
    ensures forall i :: 0 <= i < |s| ==> r[i] == LowerChar(s[i])
  {
    seq(|s|, i requires 0 <= i < |s| => LowerChar(s[i]))
  }

  // ---------------------------------------------------------------------
  // Prefixes, stripping
  // ---------------------------------------------------------------------

  predicate StartsWith(s: string, prefix: string) {
    |prefix| <= |s| && s[..|prefix|] == prefix
  }

  predicate EndsWith(s: string, suffix: string) {
    |suffix| <= |s| && s[|s| - |suffix|..] == suffix
  }

  function LStrip(s: string): (r: string)
    ensures |r| <= |s| && r == s[|s| - |r|..]
    ensures r == [] || !IsSpace(r[0])
    ensures AllSpace(s[..|s| - |r|])
  {
    if s != [] && IsSpace(s[0]) then
      var r := LStrip(s[1..]);
      assert s[1..][..|s[1..]| - |r|] == s[1..|s| - |r|];
      r
    else s
  }

  function RStrip(s: string): (r: string)
    ensures |r| <= |s| && r == s[..|r|]
    ensures r == [] || !IsSpace(r[|r| - 1])
    ensures AllSpace(s[|r|..])
  {
    if s != [] && IsSpace(s[|s| - 1]) then
      var r := RStrip(s[..|s| - 1]);
      r
    else s
  }

  /** A string `strip()` leaves as it is: it neither starts nor ends with
      whitespace. */
  predicate Trimmed(s: string) {
    s == [] || (!IsSpace(s[0]) && !IsSpace(s[|s| - 1]))
  }

  /** `str.strip()` with no argument: leading and trailing whitespace removed. */
  function Strip(s: string): (r: string)
    ensures |r| <= |s|
    ensures Trimmed(r)
    ensures r == [] <==> AllSpace(s)
  {
    var l := LStrip(s);
    var r := RStrip(l);
    assert r == [] ==> AllSpace(s) by {
      if r == [] {
        // an all-space `l` would start with a space, so `l` is empty
        assert l == [];
        assert s[..|s| - |l|] == s;
      }
    }
    r
  }

  /** The stripped text is a slice of the text. */
  lemma StripSlice(s: string) returns (a: nat)
    ensures a + |Strip(s)| <= |s| && Strip(s) == s[a..a + |Strip(s)|]
  {
    var l := LStrip(s);
    a := |s| - |l|;
    assert Strip(s) == RStrip(l);
  }

  /** `str.strip(c)` for a single character `c`: every leading and trailing `c` removed. */
  function StripChar(s: string, c: char): (r: string)
    ensures |r| <= |s|
    ensures r == [] || (r[0] != c && r[|r| - 1] != c)
    decreases |s|
  {
    if s == [] then []
    else if s[0] == c then StripChar(s[1..], c)
    else if s[|s| - 1] == c then StripChar(s[..|s| - 1], c)
    else s
  }

  /** `s` is `c…c + r + c…c`, `r` starting at `a`. */
  predicate CutsTo(s: string, r: string, a: nat, c: char) {
    a + |r| <= |s| && r == s[a..a + |r|]
    && (forall i :: 0 <= i < a ==> s[i] == c)
    && (forall i :: a + |r| <= i < |s| ==> s[i] == c)
  }

  lemma CutsFront(s: string, r: string, a: nat, c: char)
    requires s != [] && s[0] == c && CutsTo(s[1..], r, a, c)
    ensures CutsTo(s, r, a + 1, c)
  {
    assert s[1..][a..a + |r|] == s[a + 1..a + 1 + |r|];
    assert forall i :: 0 < i < a + 1 ==> s[i] == s[1..][i - 1];
    assert forall i :: a + 1 + |r| <= i < |s| ==> s[i] == s[1..][i - 1];
  }

  lemma CutsBack(s: string, r: string, a: nat, c: char)
    requires s != [] && s[|s| - 1] == c && CutsTo(s[..|s| - 1], r, a, c)
    ensures CutsTo(s, r, a, c)
  {
    assert s[..|s| - 1][a..a + |r|] == s[a..a + |r|];
  }

  /** `strip(c)` cuts a run of `c` off each end and nothing else: `s` is
      `c…c + StripChar(s, c) + c…c`. */
  lemma {:induction false} StripCharSlice(s: string, c: char) returns (a: nat)
    ensures CutsTo(s, StripChar(s, c), a, c)
    decreases |s|
  {
    if s == [] {
      a := 0;
    } else if s[0] == c {
      var a0 := StripCharSlice(s[1..], c);
      CutsFront(s, StripChar(s, c), a0, c);
      a := a0 + 1;
    } else if s[|s| - 1] == c {
      a := StripCharSlice(s[..|s| - 1], c);
      CutsBack(s, StripChar(s, c), a, c);
    } else {
      a := 0;
    }
  }

  /** `str.rstrip(c)` for a single character `c`: every trailing `c` removed. */
  function RStripChar(s: string, c: char): (r: string)
    ensures |r| <= |s| && r == s[..|r|]
    ensures r == [] || r[|r| - 1] != c
    ensures forall i :: |r| <= i < |s| ==> s[i] == c
  {
    if s != [] && s[|s| - 1] == c then RStripChar(s[..|s| - 1], c) else s
  }

  // ---------------------------------------------------------------------
  // Joining and splitting
  // ---------------------------------------------------------------------

  /** `sep.join(parts)` */
  function Join(sep: string, parts: seq<string>): string
  {
    if |parts| == 0 then ""
    else if |parts| == 1 then parts[0]
    else parts[0] + sep + Join(sep, parts[1..])
  }

  /** The joined string starts with the first part. */
  lemma JoinHead(sep: string, parts: seq<string>)
    requires parts != []
    ensures |Join(sep, parts)| >= |parts[0]|
  {
  }

  lemma {:induction false} JoinAppend(sep: string, parts: seq<string>, last: string)
    requires parts != []
    ensures Join(sep, parts + [last]) == Join(sep, parts) + sep + last
  {
    if |parts| == 1 {
      assert parts + [last] == [parts[0], last];
    } else {
      assert (parts + [last])[1..] == parts[1..] + [last];
      JoinAppend(sep, parts[1..], last);
    }
  }

  /** `s.split(c)` for a one-character separator: always at least one piece. */
  function Split(s: string, c: char): (r: seq<string>)
    ensures |r| >= 1
    ensures forall k, i :: 0 <= k < |r| && 0 <= i < |r[k]| ==> r[k][i] != c
    decreases |s|
  {
    if s == [] then [""]
    else
      var rest := Split(s[1..], c);
      if s[0] == c then [""] + rest
      else
        var head := [s[0]] + rest[0];
        assert forall i :: 0 <= i < |head| ==> head[i] != c by {
          forall i | 0 <= i < |head| ensures head[i] != c {
            if i > 0 { assert head[i] == rest[0][i - 1]; }
          }
        }
        [head] + rest[1..]
  }

  /** Joining the pieces of `split(c)` with `c` gives back the string. */
  lemma {:induction false} SplitJoin(s: string, c: char)
    ensures Join([c], Split(s, c)) == s
    decreases |s|
  {
    if s != [] {
      var rest := Split(s[1..], c);
      SplitJoin(s[1..], c);
      if s[0] == c {
        assert Split(s, c) == [""] + rest;
        assert ([""] + rest)[1..] == rest;
      } else {
        var head := [s[0]] + rest[0];
        assert Split(s, c) == [head] + rest[1..];
        if |rest| == 1 {
          assert Join([c], [head] + rest[1..]) == head;
        } else {
          assert ([head] + rest[1..])[1..] == rest[1..];
        }
      }
    }
  }

  /** Joining two non-empty lists of parts joins their concatenation. */
  lemma {:induction false} JoinConcat(sep: string, a: seq<string>, b: seq<string>)
    requires a != [] && b != []
    ensures Join(sep, a + b) == Join(sep, a) + sep + Join(sep, b)
  {
    if |a| == 1 {
      assert (a + b)[1..] == b;
    } else {
      assert (a + b)[1..] == a[1..] + b;
      JoinConcat(sep, a[1..], b);
    }
  }

  /** Three headed sections joined: each heading, then its joined parts. */
  lemma JoinSections(sep: string, h1: string, x: seq<string>, h2: string, y: seq<string>, h3: string, z: seq<string>)
    requires x != [] && y != [] && z != []
    ensures Join(sep, [h1] + x + [h2] + y + [h3] + z)
         == h1 + sep + Join(sep, x) + sep + h2 + sep + Join(sep, y) + sep + h3 + sep + Join(sep, z)
  {
    JoinConcat(sep, [h1], x);
    JoinConcat(sep, [h1] + x, [h2]);
    JoinConcat(sep, [h1] + x + [h2], y);
    JoinConcat(sep, [h1] + x + [h2] + y, [h3]);
    JoinConcat(sep, [h1] + x + [h2] + y + [h3], z);
  }

  predicate Free(s: string, c: char) {
    forall i :: 0 <= i < |s| ==> s[i] != c
  }

  /** Two pieces without `c` concatenate to a string without `c`. */
  lemma FreeConcat(a: string, b: string, c: char)
    requires Free(a, c) && Free(b, c)
    ensures Free(a + b, c)
  {
    assert forall i :: 0 <= i < |a + b| ==> (a + b)[i] == if i < |a| then a[i] else b[i - |a|];
  }

  /** No line of `lines` holds a line feed. */
  predicate LinesFree(lines: seq<string>) {
    forall k :: 0 <= k < |lines| ==> Free(lines[k], '\n')
  }

  lemma LinesFreeConcat(xs: seq<string>, ys: seq<string>)
    requires LinesFree(xs) && LinesFree(ys)
    ensures LinesFree(xs + ys)
  {
    forall k | 0 <= k < |xs + ys| ensures Free((xs + ys)[k], '\n') {
      if k >= |xs| {
        assert (xs + ys)[k] == ys[k - |xs|];
      }
    }
  }

  /** A piece without the separator followed by the separator splits off as one piece. */
  lemma {:induction false} SplitPiece(p: string, c: char, t: string)
    requires Free(p, c)
    ensures Split(p + [c] + t, c) == [p] + Split(t, c)
    ensures Split(p, c) == [p]
    decreases |p|
  {
    if p != [] {
      assert (p + [c] + t)[1..] == p[1..] + [c] + t;
      SplitPiece(p[1..], c, t);
      assert [p[0]] + p[1..] == p;
    } else {
      assert p + [c] + t == [c] + t;
    }
  }

  /** Splitting parts joined by a separator they do not contain gives the parts back. */
  lemma {:induction false} JoinSplit(parts: seq<string>, c: char)
    requires parts != []
    requires forall k :: 0 <= k < |parts| ==> Free(parts[k], c)
    ensures Split(Join([c], parts), c) == parts
  {
    if |parts| == 1 {
      SplitPiece(parts[0], c, "");
    } else {
      JoinSplit(parts[1..], c);
      SplitPiece(parts[0], c, Join([c], parts[1..]));
      assert [parts[0]] + parts[1..] == parts;
    }
  }

  /** Parts free of the separator, joined and followed by more text, split
      back into those parts followed by the pieces of the text. */
  lemma {:induction false} SplitJoinedPrefix(parts: seq<string>, c: char, t: string)
    requires parts != []
    requires forall k :: 0 <= k < |parts| ==> Free(parts[k], c)
    ensures Split(Join([c], parts) + [c] + t, c) == parts + Split(t, c)
  {
    if |parts| == 1 {
      SplitPiece(parts[0], c, t);
    } else {
      var rest := Join([c], parts[1..]) + [c] + t;
      SplitJoinedPrefix(parts[1..], c, t);
      assert Join([c], parts) + [c] + t == parts[0] + [c] + rest;
      SplitPiece(parts[0], c, rest);
      assert [parts[0]] + parts[1..] == parts;
    }
  }

  /** Number of leading characters before the first line break. */
  function LineLen(s: string): (n: nat)
    ensures n <= |s|
    ensures n < |s| ==> IsLineBreak(s[n])
  {
    if s == [] || IsLineBreak(s[0]) then 0 else 1 + LineLen(s[1..])
  }

  /** No line break comes before the first one. */
  lemma {:induction false} LineLenClean(s: string)
    ensures NoLineBreak(s[..LineLen(s)])
    decreases |s|
  {
    if s != [] && !IsLineBreak(s[0]) {
      LineLenClean(s[1..]);
      assert s[..LineLen(s)] == [s[0]] + s[1..][..LineLen(s[1..])];
    }
  }

  /** `x` holds no line-break character. */
  predicate NoLineBreak(x: string) {
    forall i :: 0 <= i < |x| ==> !IsLineBreak(x[i])
  }

  /** The length of the line ending at `s[n]`: two for a `\\r\\n` pair, else one. */
  function BreakLen(s: string, n: nat): nat
    requires n < |s|
  {
    if s[n] == '\r' && n + 1 < |s| && s[n + 1] == '\n' then 2 else 1
  }

  /** `str.splitlines()`: lines without their breaks, a `\r\n` pair counting
      as one break, and no trailing empty line. */
  function SplitLines(s: string): (r: seq<string>)
    ensures |r| == 0 <==> |s| == 0
    decreases |s|
  {
    if |s| == 0 then []
    else
      var n := LineLen(s);
      if n == |s| then [s]
      else
        [s[..n]] + SplitLines(s[n + BreakLen(s, n)..])
  }

  /** A line ending `splitlines` recognises: one line-break character, or `\r\n`. */
  predicate LineEnding(b: string) {
    (|b| == 1 && IsLineBreak(b[0])) || b == "\r\n"
  }

  /** The text is `lines[0] + ends[0] + lines[1] + ends[1] + …`: no line
      holds a line break, every ending but a missing last one is a line ending, a `\r` ending is
      never followed by an empty line whose ending starts with `\n` (the
      pair counts as one ending), and the last line is not an empty line
      without an ending. */
  ghost predicate LinesLayout(s: string, lines: seq<string>, ends: seq<string>) {
    |ends| == |lines|
    && (forall k :: 0 <= k < |lines| ==> NoLineBreak(lines[k]))
    && (forall k :: 0 <= k < |lines| ==> LineEnding(ends[k]) || (k == |lines| - 1 && ends[k] == []))
    && (forall k :: 0 <= k < |lines| - 1 ==> ends[k] == "\r" ==> !(lines[k + 1] == [] && StartsWith(ends[k + 1], "\n")))
    && (lines != [] ==> lines[|lines| - 1] + ends[|lines| - 1] != [])
    && s == Weave(lines + [[]], ends)
  }

  /** A line and its ending in front of laid-out text. */
  lemma LinesLayoutCons(line: string, end: string, t: string, lines: seq<string>, ends: seq<string>)
    requires LinesLayout(t, lines, ends) && LineEnding(end) && NoLineBreak(line)
    requires end == "\r" ==> t == [] || t[0] != '\n'
    ensures LinesLayout(line + end + t, [line] + lines, [end] + ends)
  {
    var lines', ends' := [line] + lines, [end] + ends;
    assert (lines' + [[]])[1..] == lines + [[]] && ends'[1..] == ends;
    if end == "\r" && lines != [] && lines[0] == [] {
      assert t == lines[0] + ends[0] + Weave((lines + [[]])[1..], ends[1..]);
      assert ends[0] != [] && t[0] == ends[0][0];
    }
    forall k | 0 <= k < |lines'| - 1 ensures ends'[k] == "\r" ==> !(lines'[k + 1] == [] && StartsWith(ends'[k + 1], "\n")) {
      assert lines'[k + 1] == lines[k] && ends'[k + 1] == ends[k];
    }
    forall k | 0 <= k < |lines'| ensures LineEnding(ends'[k]) || (k == |lines'| - 1 && ends'[k] == []) {
      if k > 0 {
        assert ends'[k] == ends[k - 1];
      }
    }
    forall k | 0 <= k < |lines'| ensures NoLineBreak(lines'[k]) {
      if k > 0 {
        assert lines'[k] == lines[k - 1];
      }
    }
  }

  /** `splitlines` cuts the text into its lines and their endings. */
  lemma {:induction false} SplitLinesLayout(s: string) returns (ends: seq<string>)
    ensures LinesLayout(s, SplitLines(s), ends)
    decreases |s|
  {
    if s == [] {
      ends := [];
    } else if LineLen(s) == |s| {
      SplitLinesWhole(s);
      LineLenClean(s);
      assert s[..|s|] == s;
      LinesLayoutSingle(s);
      ends := [[]];
    } else {
      var n := LineLen(s);
      var e := SplitLinesLayout(s[n + BreakLen(s, n)..]);
      SplitLinesFirst(s, n, e);
      ends := [s[n..n + BreakLen(s, n)]] + e;
    }
  }

  /** The first line and its ending in front of the laid-out rest. */
  lemma SplitLinesFirst(s: string, n: nat, e: seq<string>)
    requires s != [] && n == LineLen(s) < |s|
    requires n + BreakLen(s, n) <= |s|
    requires LinesLayout(s[n + BreakLen(s, n)..], SplitLines(s[n + BreakLen(s, n)..]), e)
    ensures LinesLayout(s, SplitLines(s), [s[n..n + BreakLen(s, n)]] + e)
  {
    var brk := BreakLen(s, n);
    SplitLinesStep(s, n);
    BreakEnding(s, n);
    var t := s[n + brk..];
    CutThree(s, n, n + brk);
    LineLenClean(s);
    LinesLayoutCons(s[..n], s[n..n + brk], t, SplitLines(t), e);
  }

  /** A string is its three slices at `i` and `j`. */
  lemma CutThree(s: string, i: nat, j: nat)
    requires i <= j <= |s|
    ensures s == s[..i] + s[i..j] + s[j..]
  {
  }

  /** Text without a line break is one line with no ending. */
  lemma SplitLinesWhole(s: string)
    requires s != [] && LineLen(s) == |s|
    ensures SplitLines(s) == [s]
  {
  }

  lemma LinesLayoutSingle(s: string)
    requires s != [] && NoLineBreak(s)
    ensures LinesLayout(s, [s], [[]])
  {
    assert Weave([s, []], [[]]) == s + [] + Weave([[]], []);
  }

  lemma SplitLinesStep(s: string, n: nat)
    requires s != [] && n == LineLen(s) < |s|
    ensures n + BreakLen(s, n) <= |s|
    ensures SplitLines(s) == [s[..n]] + SplitLines(s[n + BreakLen(s, n)..])
  {
  }

  /** The first line's ending is a line ending, and a lone `\r` is not followed by `\n`. */
  lemma BreakEnding(s: string, n: nat)
    requires n < |s| && IsLineBreak(s[n])
    ensures n + BreakLen(s, n) <= |s| && LineEnding(s[n..n + BreakLen(s, n)])
    ensures s[n..n + BreakLen(s, n)] == "\r" ==> s[n + BreakLen(s, n)..] == [] || s[n + BreakLen(s, n)] != '\n'
  {
    if BreakLen(s, n) == 2 {
      assert s[n..n + 2] == "\r\n";
    } else {
      assert s[n..n + 1] == [s[n]];
    }
  }

  /** Length of the leading run of non-whitespace characters. */
  function WordLen(s: string): (n: nat)
    ensures n <= |s|
    ensures n < |s| ==> IsSpace(s[n])
    ensures NoSpace(s[..n])
  {
    if s == [] || IsSpace(s[0]) then 0
    else
      var n := 1 + WordLen(s[1..]);
      assert s[..n] == [s[0]] + s[1..][..n - 1];
      n
  }

  /** `str.split()` with no argument: the maximal runs of non-whitespace. */
  function Words(s: string): (r: seq<string>)
    ensures forall k :: 0 <= k < |r| ==> r[k] != [] && NoSpace(r[k])
    decreases |s|
  {
    if s == [] then []
    else if IsSpace(s[0]) then Words(s[1..])
    else
      var n := WordLen(s);
      [s[..n]] + Words(s[n..])
  }

  /** `outer[0] + inner[0] + outer[1] + … + inner[m-1] + outer[m]` */
  function Weave(outer: seq<string>, inner: seq<string>): string
    requires |outer| == |inner| + 1
  {
    if inner == [] then outer[0] else outer[0] + inner[0] + Weave(outer[1..], inner[1..])
  }

  /** `s` is made of the non-empty `runs` of characters in the class,
      separated by `gaps` holding none, consecutive runs having a non-empty
      gap between them: so the runs are exactly the maximal runs of `s`, in
      order. */
  ghost predicate RunLayout(s: string, runs: seq<string>, gaps: seq<string>, inRun: char -> bool) {
    |gaps| == |runs| + 1
    && (forall k :: 0 <= k < |runs| ==> runs[k] != [] && forall i :: 0 <= i < |runs[k]| ==> inRun(runs[k][i]))
    && (forall k :: 0 <= k < |gaps| ==> forall i :: 0 <= i < |gaps[k]| ==> !inRun(gaps[k][i]))
    && (forall k :: 0 < k < |runs| ==> gaps[k] != [])
    && s == Weave(gaps, runs)
  }

  lemma RunLayoutEmpty(inRun: char -> bool)
    ensures RunLayout([], [], [[]], inRun)
  {
  }

  /** A character outside the class joins the leading gap. */
  lemma RunLayoutGap(c: char, t: string, runs: seq<string>, gaps: seq<string>, inRun: char -> bool)
    requires RunLayout(t, runs, gaps, inRun) && !inRun(c)
    ensures RunLayout([c] + t, runs, [[c] + gaps[0]] + gaps[1..], inRun)
  {
    var gaps' := [[c] + gaps[0]] + gaps[1..];
    assert gaps'[1..] == gaps[1..];
    forall k | 0 <= k < |gaps'| ensures forall i :: 0 <= i < |gaps'[k]| ==> !inRun(gaps'[k][i]) {
      if k == 0 {
        assert forall i :: 0 < i < |gaps'[0]| ==> gaps'[0][i] == gaps[0][i - 1];
      } else {
        assert gaps'[k] == gaps[k];
      }
    }
  }

  /** A run followed by text that does not continue it becomes the first run. */
  lemma RunLayoutRun(w: string, t: string, runs: seq<string>, gaps: seq<string>, inRun: char -> bool)
    requires RunLayout(t, runs, gaps, inRun)
    requires w != [] && forall i :: 0 <= i < |w| ==> inRun(w[i])
    requires t == [] || !inRun(t[0])
    ensures RunLayout(w + t, [w] + runs, [[]] + gaps, inRun)
  {
    var runs', gaps' := [w] + runs, [[]] + gaps;
    assert runs'[1..] == runs && gaps'[1..] == gaps;
    forall k | 0 < k < |runs'| ensures gaps'[k] != [] {
      assert gaps'[k] == gaps[k - 1];
    }
  }

  function NonSpace(c: char): bool { !IsSpace(c) }

  /** `str.split()` cuts the text into its maximal runs of non-whitespace. */
  lemma {:induction false} WordsLayout(s: string) returns (gaps: seq<string>)
    ensures RunLayout(s, Words(s), gaps, NonSpace)
    decreases |s|
  {
    if s == [] {
      RunLayoutEmpty(NonSpace);
      gaps := [[]];
    } else if IsSpace(s[0]) {
      var g := WordsLayout(s[1..]);
      RunLayoutGap(s[0], s[1..], Words(s[1..]), g, NonSpace);
      assert [s[0]] + s[1..] == s;
      gaps := [[s[0]] + g[0]] + g[1..];
    } else {
      var n := WordLen(s);
      var g := WordsLayout(s[n..]);
      RunLayoutRun(s[..n], s[n..], Words(s[n..]), g, NonSpace);
      assert s[..n] + s[n..] == s;
      gaps := [[]] + g;
    }
  }

  // ---------------------------------------------------------------------
  // Searching
  // ---------------------------------------------------------------------

  predicate OccursAt(s: string, pat: string, i: int) {
    0 <= i && i + |pat| <= |s| && s[i..i + |pat|] == pat
  }

  function FindFrom(s: string, pat: string, start: nat): (r: int)
    requires start <= |s|
    ensures r == -1 || (start <= r && OccursAt(s, pat, r))
    ensures r == -1 ==> forall i :: start <= i <= |s| ==> !OccursAt(s, pat, i)
    ensures r != -1 ==> forall i :: start <= i < r ==> !OccursAt(s, pat, i)
    decreases |s| - start
  {
    if OccursAt(s, pat, start) then start
    else if start + |pat| >= |s| then
      assert forall i :: start < i <= |s| ==> !OccursAt(s, pat, i);
      -1
    else FindFrom(s, pat, start + 1)
  }

  /** `s.find(pat)`: the first index at which `pat` occurs, or -1. */
  function Find(s: string, pat: string): (r: int)
    ensures r == -1 <==> forall i :: 0 <= i <= |s| ==> !OccursAt(s, pat, i)
    ensures r != -1 ==> OccursAt(s, pat, r) && forall i :: 0 <= i < r ==> !OccursAt(s, pat, i)
  {
    FindFrom(s, pat, 0)
  }

  /** `pat in s` */
  predicate Contains(s: string, pat: string) {
    Find(s, pat) != -1
  }

  // ---------------------------------------------------------------------
  // Decimal rendering of natural numbers (`str(n)` / f-string `{n}`)
  // ---------------------------------------------------------------------

  function DigitChar(d: nat): (c: char)
    requires d < 10
    ensures IsDigit(c)
  {
    ('0' as int + d) as char
  }

  function DigitValue(c: char): (d: nat)
    requires IsDigit(c)
    ensures d < 10
  {
    c as int - '0' as int
  }

  function NatToString(n: nat): (r: string)
    ensures |r| >= 1 && AllDigits(r)
  {
    if n < 10 then [DigitChar(n)]
    else NatToString(n / 10) + [DigitChar(n % 10)]
  }

  /** `int(s)` for a non-empty string of decimal digits. */
  function ParseDigits(s: string): nat
    requires AllDigits(s)
  {
    if s == [] then 0 else ParseDigits(s[..|s| - 1]) * 10 + DigitValue(s[|s| - 1])
  }

  /** Parsing the decimal rendering of `n` gives back `n`. */
  lemma {:induction false} ParseNatToString(n: nat)
    ensures ParseDigits(NatToString(n)) == n
  {
    if n >= 10 {
      var s := NatToString(n);
      assert s[..|s| - 1] == NatToString(n / 10);
      ParseNatToString(n / 10);
    }
  }

  /** Distinct numbers have distinct renderings, so `family_1`, `family_2`, ... never collide. */
  lemma NatToStringInjective(a: nat, b: nat)
    requires NatToString(a) == NatToString(b)
    ensures a == b
  {
    ParseNatToString(a);
    ParseNatToString(b);
  }

  lemma {:induction false} PrefixNamesInjective(prefix: string, a: nat, b: nat)
    requires prefix + NatToString(a) == prefix + NatToString(b)
    ensures a == b
  {
    var sa, sb := prefix + NatToString(a), prefix + NatToString(b);
    assert sa[|prefix|..] == NatToString(a);
    assert sb[|prefix|..] == NatToString(b);
    NatToStringInjective(a, b);
  }

  // ---------------------------------------------------------------------
  // Optional strings (`None` or a `str`)
  // ---------------------------------------------------------------------

  /** An optional string that Python treats as false: `None` or empty. */
  predicate Falsy(k: Option<string>) {
    k.None? || k.value == ""
  }

  /** `a or b` on optional strings: `a` unless it is `None` or empty. */
  function OrElse(a: Option<string>, b: Option<string>): (r: Option<string>)
    ensures !Falsy(a) ==> r == a
    ensures Falsy(a) ==> r == b
  {
    if a.Some? && a.value != "" then a else b
  }
}
