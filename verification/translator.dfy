/** The chain-of-reasoning translator (`translator.py`): it cuts a numbered
    reasoning text into titled segments of labelled steps and writes them
    out as FOL-style `Chain`, `Step` and `Supports` facts.

    The three regular expressions of `ChainReasoningParser` are written out
    as matchers over ASCII character classes (`\s`, `\d`, `[A-Za-z0-9]`),
    following Python's greedy matching with backtracking. */
module Translator {
  import opened Wrappers
  import opened Text

  /** A step; `name` holds the source's `label` (a reserved word here). */
  datatype Step = Step(name: string, detail: string)

  datatype ChainSegment = ChainSegment(title: string, steps: seq<Step>)

  // ---------------------------------------------------------------------
  // _to_constant
  // ---------------------------------------------------------------------

  predicate AllAlnum(s: string) {
    forall i :: 0 <= i < |s| ==> IsAlnum(s[i])
  }

  /** Length of the leading run of `[A-Za-z0-9]`. */
  function AlnumLen(s: string): (n: nat)
    ensures n <= |s|
    ensures n < |s| ==> !IsAlnum(s[n])
    ensures AllAlnum(s[..n])
  {
    if s == [] || !IsAlnum(s[0]) then 0
    else
      var n := 1 + AlnumLen(s[1..]);
      assert s[..n] == [s[0]] + s[1..][..n - 1];
      n
  }

  /** `re.findall(r"[A-Za-z0-9]+", s)`: the maximal alphanumeric runs. */
  function AlnumRuns(s: string): (r: seq<string>)
    ensures forall k :: 0 <= k < |r| ==> r[k] != [] && AllAlnum(r[k])
    decreases |s|
  {
    if s == [] then []
    else if !IsAlnum(s[0]) then AlnumRuns(s[1..])
    else
      var n := AlnumLen(s);
      [s[..n]] + AlnumRuns(s[n..])
  }

  /** `findall` cuts the text into its maximal alphanumeric runs and the
      non-alphanumeric gaps between them. */
  lemma {:induction false} AlnumRunsLayout(s: string) returns (gaps: seq<string>)
    ensures RunLayout(s, AlnumRuns(s), gaps, IsAlnum)
    decreases |s|
  {
    if s == [] {
      RunLayoutEmpty(IsAlnum);
      gaps := [[]];
    } else if !IsAlnum(s[0]) {
      var g := AlnumRunsLayout(s[1..]);
      RunLayoutGap(s[0], s[1..], AlnumRuns(s[1..]), g, IsAlnum);
      assert [s[0]] + s[1..] == s;
      gaps := [[s[0]] + g[0]] + g[1..];
    } else {
      var n := AlnumLen(s);
      var g := AlnumRunsLayout(s[n..]);
      assert s[..n] != [] by { assert s[..n][..1] == s[..1]; }
      RunLayoutRun(s[..n], s[n..], AlnumRuns(s[n..]), g, IsAlnum);
      assert s[..n] + s[n..] == s;
      gaps := [[]] + g;
    }
  }

  /** `token.capitalize()`: the first character upper-cased, the rest lower-cased. */
  function Capitalize(t: string): (r: string)
    requires t != []
  {
    [UpperChar(t[0])] + Lower(t[1..])
  }

  /** `"".join(token.capitalize() for token in tokens)` */
  function Capitalized(tokens: seq<string>): string
    requires forall k :: 0 <= k < |tokens| ==> tokens[k] != []
  {
    if tokens == [] then [] else Capitalize(tokens[0]) + Capitalized(tokens[1..])
  }

  /** `_to_constant(text)` */
  function ToConstant(text: string): (r: string)
    ensures r != []
  {
    var c := Capitalized(AlnumRuns(text));
    if c == [] then "Unknown" else c
  }

  /** The alphanumeric characters of `s`, in order. */
  function AlnumOnly(s: string): (r: string)
    ensures AllAlnum(r)
  {
    if s == [] then [] else (if IsAlnum(s[0]) then [s[0]] else []) + AlnumOnly(s[1..])
  }

  lemma LowerConcat(a: string, b: string)
    ensures Lower(a + b) == Lower(a) + Lower(b)
  {
  }

  lemma {:induction false} AlnumOnlyConcat(a: string, b: string)
    ensures AlnumOnly(a + b) == AlnumOnly(a) + AlnumOnly(b)
  {
    if a == [] {
      assert a + b == b;
    } else {
      assert (a + b)[0] == a[0] && (a + b)[1..] == a[1..] + b;
      AlnumOnlyConcat(a[1..], b);
    }
  }

  lemma {:induction false} AlnumOnlyAll(s: string)
    requires AllAlnum(s)
    ensures AlnumOnly(s) == s
  {
    if s != [] {
      AlnumOnlyAll(s[1..]);
    }
  }

  /** A capitalised token spells the token, case aside, and stays alphanumeric. */
  lemma CapitalizeSpells(t: string)
    requires t != [] && AllAlnum(t)
    ensures |Capitalize(t)| == |t| && Lower(Capitalize(t)) == Lower(t)
    ensures AllAlnum(Capitalize(t)) && !IsLower(Capitalize(t)[0])
  {
    var r := Capitalize(t);
    forall i | 0 <= i < |t| ensures LowerChar(r[i]) == LowerChar(t[i]) && IsAlnum(r[i]) {
      if i > 0 {
        assert r[i] == LowerChar(t[i]);
      }
    }
  }

  /** The runs of `s`, capitalised and joined, spell its alphanumeric
      characters, stay alphanumeric and start upper-case. */
  predicate Spells(s: string) {
    var c := Capitalized(AlnumRuns(s));
    Lower(c) == Lower(AlnumOnly(s)) && AllAlnum(c)
    && (c == [] <==> AlnumOnly(s) == [])
    && (c != [] ==> !IsLower(c[0]))
  }

  lemma {:induction false} RunsSpell(s: string)
    ensures Spells(s)
    decreases |s|
  {
    if s == [] {
    } else if !IsAlnum(s[0]) {
      RunsSpell(s[1..]);
    } else {
      RunsSpell(s[AlnumLen(s)..]);
      RunSpells(s);
    }
  }

  /** A leading run followed by text that spells gives text that spells. */
  lemma RunSpells(s: string)
    requires s != [] && IsAlnum(s[0]) && Spells(s[AlnumLen(s)..])
    ensures Spells(s)
  {
    var n := AlnumLen(s);
    var t, rest := s[..n], s[n..];
    var runs := AlnumRuns(rest);
    CapitalizeSpells(t);
    assert AlnumRuns(s) == [t] + runs;
    assert ([t] + runs)[1..] == runs;
    assert Capitalized(AlnumRuns(s)) == Capitalize(t) + Capitalized(runs);
    assert s == t + rest;
    AlnumOnlyConcat(t, rest);
    AlnumOnlyAll(t);
    SpellConcat(Capitalize(t), Capitalized(runs), t, AlnumOnly(rest));
  }

  /** Spelling carries over to concatenations. */
  lemma SpellConcat(x: string, y: string, a: string, b: string)
    requires x != [] && Lower(x) == Lower(a) && AllAlnum(x) && !IsLower(x[0])
    requires Lower(y) == Lower(b) && AllAlnum(y)
    ensures Lower(x + y) == Lower(a + b) && AllAlnum(x + y)
    ensures x + y != [] && !IsLower((x + y)[0])
  {
    LowerConcat(x, y);
    LowerConcat(a, b);
    assert forall i :: 0 <= i < |x + y| ==> (x + y)[i] == if i < |x| then x[i] else y[i - |x|];
  }

  /** The constant spells the text's letters and digits in order, each
      token starting upper-case, and is `Unknown` when there are none. */
  lemma ToConstantSpells(text: string)
    ensures AllAlnum(ToConstant(text))
    ensures AlnumOnly(text) == [] ==> ToConstant(text) == "Unknown"
    ensures AlnumOnly(text) != [] ==>
      Lower(ToConstant(text)) == Lower(AlnumOnly(text)) && !IsLower(ToConstant(text)[0])
  {
    RunsSpell(text);
  }

  /** Where token `k` starts once the tokens are joined. */
  function Offset(tokens: seq<string>, k: nat): nat
    requires k <= |tokens|
  {
    if k == 0 then 0 else |tokens[0]| + Offset(tokens[1..], k - 1)
  }

  /** `c` holds every token, capitalised, at the token's offset, and
      nothing else. */
  predicate CapitalizedAtOffsets(c: string, tokens: seq<string>)
    requires forall k :: 0 <= k < |tokens| ==> tokens[k] != []
  {
    |c| == Offset(tokens, |tokens|)
    && forall k :: 0 <= k < |tokens| ==>
         Offset(tokens, k) + |tokens[k]| <= |c|
         && c[Offset(tokens, k)..Offset(tokens, k) + |tokens[k]|] == Capitalize(tokens[k])
  }

  /** `capitalize` upper-cases the first character, lower-cases the others
      and keeps the length. */
  lemma CapitalizeLetters(t: string)
    requires t != []
    ensures |Capitalize(t)| == |t|
    ensures forall i :: 0 <= i < |t| ==>
      Capitalize(t)[i] == if i == 0 then UpperChar(t[0]) else LowerChar(t[i])
  {
    forall i | 0 < i < |t| ensures Capitalize(t)[i] == LowerChar(t[i]) {
      assert Capitalize(t)[i] == Lower(t[1..])[i - 1];
    }
  }

  lemma {:induction false} CapitalizedLetters(tokens: seq<string>)
    requires forall k :: 0 <= k < |tokens| ==> tokens[k] != []
    ensures CapitalizedAtOffsets(Capitalized(tokens), tokens)
  {
    if tokens != [] {
      var rest := tokens[1..];
      CapitalizedLetters(rest);
      var a, b := Capitalize(tokens[0]), Capitalized(rest);
      CapitalizeLetters(tokens[0]);
      assert Capitalized(tokens) == a + b;
      forall k | 0 <= k < |tokens|
        ensures Offset(tokens, k) + |tokens[k]| <= |a + b|
        ensures (a + b)[Offset(tokens, k)..Offset(tokens, k) + |tokens[k]|] == Capitalize(tokens[k])
      {
        if k == 0 {
          assert (a + b)[..|a|] == a;
        } else {
          assert tokens[k] == rest[k - 1];
          ShiftSlice(a, b, Offset(rest, k - 1), |tokens[k]|);
        }
      }
    }
  }

  /** A slice of the second part of a concatenation, seen from the whole. */
  lemma ShiftSlice(a: string, b: string, j: nat, len: nat)
    requires j + len <= |b|
    ensures |a| + j + len <= |a + b| && (a + b)[|a| + j..|a| + j + len] == b[j..j + len]
  {
  }

  /** A text without letters or digits gives `Unknown`; otherwise the
      constant is its alphanumeric runs, each capitalised, one after the
      other. */
  lemma ToConstantLetters(text: string)
    ensures AlnumRuns(text) == [] ==> ToConstant(text) == "Unknown"
    ensures AlnumRuns(text) != [] ==>
      CapitalizedAtOffsets(ToConstant(text), AlnumRuns(text))
  {
    var runs := AlnumRuns(text);
    CapitalizedLetters(runs);
    if runs != [] {
      assert Offset(runs, 0) + |runs[0]| <= |Capitalized(runs)|;
    }
  }

  // ---------------------------------------------------------------------
  // Scanning helpers for the three patterns
  // ---------------------------------------------------------------------

  /** End of the whitespace run starting at `i` (`\s*`, greedy). */
  function SpaceEnd(s: string, i: nat): (j: nat)
    requires i <= |s|
    ensures i <= j <= |s|
    ensures forall k :: i <= k < j ==> IsSpace(s[k])
    ensures j < |s| ==> !IsSpace(s[j])
    decreases |s| - i
  {
    if i < |s| && IsSpace(s[i]) then SpaceEnd(s, i + 1) else i
  }

  /** End of the digit run starting at `i` (`\d+`, greedy). */
  function DigitEnd(s: string, i: nat): (j: nat)
    requires i <= |s|
    ensures i <= j <= |s|
    ensures forall k :: i <= k < j ==> IsDigit(s[k])
    ensures j < |s| ==> !IsDigit(s[j])
    decreases |s| - i
  {
    if i < |s| && IsDigit(s[i]) then DigitEnd(s, i + 1) else i
  }

  /** The first line feed at or after `i`, or the end (`.+` stops there). */
  function LineEnd(s: string, i: nat): (j: nat)
    requires i <= |s|
    ensures i <= j <= |s|
    ensures forall k :: i <= k < j ==> s[k] != '\n'
    ensures j < |s| ==> s[j] == '\n'
    decreases |s| - i
  {
    if i < |s| && s[i] != '\n' then LineEnd(s, i + 1) else i
  }

  /** The last position in `[lo, hi)` that is not a line feed. */
  function LastNonNewline(s: string, lo: nat, hi: nat): (r: Option<nat>)
    requires lo <= hi <= |s|
    ensures r.Some? ==> lo <= r.value < hi && s[r.value] != '\n'
                        && forall k :: r.value < k < hi ==> s[k] == '\n'
    ensures r.None? ==> forall k :: lo <= k < hi ==> s[k] == '\n'
    decreases hi
  {
    if hi == lo then None
    else if s[hi - 1] != '\n' then Some(hi - 1)
    else LastNonNewline(s, lo, hi - 1)
  }

  /** The tail `\s*(.+)$` matched from `lo` (multi-line `$`): where the
      captured group starts and ends. The greedy `\s*` stops at the first
      non-space; when it runs to the end, it gives characters back until
      `.` can match one. */
  function RestOfLine(s: string, lo: nat): (r: Option<(nat, nat)>)
    requires lo <= |s|
    ensures r.Some? ==> lo <= r.value.0 < r.value.1 <= |s| && r.value.1 == LineEnd(s, r.value.0)
    ensures r.Some? ==> forall k :: lo <= k < r.value.0 ==> IsSpace(s[k])
  {
    var q := SpaceEnd(s, lo);
    if q < |s| then Some((q, LineEnd(s, q)))
    else match LastNonNewline(s, lo, |s|)
      case Some(j) => Some((j, LineEnd(s, j)))
      case None => None
  }

  // ---------------------------------------------------------------------
  // SECTION_PATTERN: ^\s*(\d+)\.\s*(.+)$ with re.M
  // ---------------------------------------------------------------------

  /** A header match: where it starts, and where its title (group 2) starts
      and ends; the match ends with its title. */
  datatype Header = Header(start: nat, titleStart: nat, end: nat)

  /** `^` under `re.M`: the start of the text or just after a line feed. */
  predicate LineStart(s: string, p: nat) {
    p == 0 || (p <= |s| && s[p - 1] == '\n')
  }

  /** `SECTION_PATTERN` tried at position `p`. A greedy `\d+` must be
      followed by the dot, and the leading `\s*` can only give back spaces,
      which `\d` cannot match, so neither is retried. */
  function HeaderAt(s: string, p: nat): (r: Option<Header>)
    requires p <= |s|
  {
    var q1 := SpaceEnd(s, p);
    var q2 := DigitEnd(s, q1);
    if q2 == q1 || q2 >= |s| || s[q2] != '.' then None
    else match RestOfLine(s, q2 + 1)
      case Some((a, b)) => Some(Header(p, a, b))
      case None => None
  }

  /** Blanks from `start` to `q1`, digits from `q1` to `q2`, a dot at `q2`
      and blanks up to `titleStart`. */
  predicate NumberedPrefix(s: string, start: nat, q1: nat, q2: nat, titleStart: nat) {
    start <= q1 < q2 < titleStart <= |s|
    && (forall k :: start <= k < q1 ==> IsSpace(s[k]))
    && (forall k :: q1 <= k < q2 ==> IsDigit(s[k]))
    && s[q2] == '.'
    && (forall k :: q2 < k < titleStart ==> IsSpace(s[k]))
  }

  /** What a header match looks like: blanks, a number, a dot, blanks, and
      a title that is the rest of its line. */
  ghost predicate HeaderShape(s: string, h: Header) {
    h.start < h.titleStart < h.end <= |s|
    && (h.end == |s| || s[h.end] == '\n')
    && (forall k :: h.titleStart <= k < h.end ==> s[k] != '\n')
    && exists q1, q2 :: NumberedPrefix(s, h.start, q1, q2, h.titleStart)
  }

  /** Every match found has the shape of a header. */
  lemma HeaderAtShape(s: string, p: nat)
    requires p <= |s| && HeaderAt(s, p).Some?
    ensures HeaderAt(s, p).value.start == p && HeaderShape(s, HeaderAt(s, p).value)
  {
    var q1 := SpaceEnd(s, p);
    var q2 := DigitEnd(s, q1);
    var h := HeaderAt(s, p).value;
    assert NumberedPrefix(s, h.start, q1, q2, h.titleStart);
  }

  /** Matches within the text, in order and not overlapping. */
  predicate Ordered(s: string, hs: seq<Header>) {
    (forall k :: 0 <= k < |hs| ==> hs[k].start < hs[k].titleStart < hs[k].end <= |s|)
    && forall i, j :: 0 <= i < j < |hs| ==> hs[i].end <= hs[j].start
  }

  /** `SECTION_PATTERN.finditer(s)` from `pos`: each match is tried at the
      next line start, and the search resumes where a match ends. */
  function Headers(s: string, pos: nat): (r: seq<Header>)
    requires pos <= |s|
    ensures forall k :: 0 <= k < |r| ==> pos <= r[k].start && LineStart(s, r[k].start)
    ensures Ordered(s, r)
    decreases |s| - pos
  {
    if pos >= |s| then []
    else if LineStart(s, pos) && HeaderAt(s, pos).Some? then
      var h := HeaderAt(s, pos).value;
      HeaderAtShape(s, pos);
      var rest := Headers(s, h.end);
      assert forall k :: 0 < k < |[h] + rest| ==> ([h] + rest)[k] == rest[k - 1];
      [h] + rest
    else Headers(s, pos + 1)
  }

  // ---------------------------------------------------------------------
  // STEP_PATTERN and BULLET_PATTERN, on one stripped line
  // ---------------------------------------------------------------------

  /** The characters of `[A-Za-z0-9 &'"/-]`. */
  predicate LabelChar(c: char) {
    IsAlnum(c) || c == ' ' || c == '&' || c == '\'' || c == '"' || c == '/' || c == '-'
  }

  function LabelEnd(s: string, i: nat): (j: nat)
    requires i <= |s|
    ensures i <= j <= |s|
    ensures forall k :: i <= k < j ==> LabelChar(s[k])
    ensures j < |s| ==> !LabelChar(s[j])
    decreases |s| - i
  {
    if i < |s| && LabelChar(s[i]) then LabelEnd(s, i + 1) else i
  }

  /** `STEP_PATTERN.match(line)` on a stripped line without line feeds,
      where `$` means the end: the stripped label and detail. The label run
      cannot hold `:`, so the colon must follow the whole run. On a line
      with leading blanks it can differ from the pattern, which may then
      take a blank as the label; `LineStep` strips the line first. */
  function StepMatch(line: string): (r: Option<Step>)
    requires Free(line, '\n')
  {
    var q1 := SpaceEnd(line, 0);
    StepAfter(line, q1, LabelEnd(line, q1))
  }

  /** The rest of `STEP_PATTERN` once the blanks end at `q1` and the label
      run at `q2`: a non-empty label, a colon and the detail. */
  function StepAfter(line: string, q1: nat, q2: nat): (r: Option<Step>)
    requires q1 <= q2 <= |line|
  {
    if q2 == q1 || q2 >= |line| || line[q2] != ':' then None
    else match RestOfLine(line, q2 + 1)
      case Some((a, b)) => Some(Step(Strip(line[q1..q2]), Strip(line[a..b])))
      case None => None
  }

  /** The bullet characters `-` and `•`. */
  predicate BulletChar(c: char) {
    c == '-' || c == '•'
  }

  /** `BULLET_PATTERN.match(line)`: the stripped text after the bullet. */
  function BulletMatch(line: string): (r: Option<string>)
    requires Free(line, '\n')
  {
    BulletAfter(line, SpaceEnd(line, 0))
  }

  /** The rest of `BULLET_PATTERN` once the blanks end at `q1`. */
  function BulletAfter(line: string, q1: nat): (r: Option<string>)
    requires q1 <= |line|
  {
    if q1 >= |line| || !BulletChar(line[q1]) then None
    else match RestOfLine(line, q1 + 1)
      case Some((a, b)) => Some(Strip(line[a..b]))
      case None => None
  }

  /** `" ".join(detail.split()[:3]) or "Step"` */
  function BulletLabel(detail: string): string {
    var words := Words(detail);
    var joined := Join(" ", if |words| <= 3 then words else words[..3]);
    if joined == "" then "Step" else joined
  }

  // ---------------------------------------------------------------------
  // _extract_steps
  // ---------------------------------------------------------------------

  /** The step one line contributes, if any. */
  function LineStep(raw: string): (r: Option<Step>)
    requires Free(raw, '\n')
  {
    var line := Strip(raw);
    StripFree(raw);
    if line == [] then None
    else match StepMatch(line)
      case Some(st) => Some(st)
      case None =>
        match BulletMatch(line)
        case Some(detail) => Some(Step(BulletLabel(detail), detail))
        case None => None
  }

  /** On a line without line feeds `\s*(.+)$` from `lo` matches exactly
      when a character is left, and its group runs to the end. */
  lemma RestOfLineFree(s: string, lo: nat)
    requires lo <= |s| && Free(s, '\n')
    ensures RestOfLine(s, lo).Some? <==> lo < |s|
    ensures RestOfLine(s, lo).Some? ==> RestOfLine(s, lo).value.1 == |s|
  {
    if lo < |s| && SpaceEnd(s, lo) == |s| {
      assert s[|s| - 1] != '\n';
    }
  }

  /** `STEP_PATTERN` matches a line exactly when its label run, after the
      leading blanks, is non-empty and followed by a colon and at least one
      more character; the step's name is the stripped label and its detail
      the stripped text after the blanks that follow the colon. */
  lemma StepMatchShape(line: string)
    requires Free(line, '\n')
    ensures var q1 := SpaceEnd(line, 0);
      var q2 := LabelEnd(line, q1);
      StepMatch(line).Some? <==> q1 < q2 && q2 + 1 < |line| && line[q2] == ':'
    ensures var q1 := SpaceEnd(line, 0);
      var q2 := LabelEnd(line, q1);
      StepMatch(line).Some? ==>
        StepMatch(line).value.name == Strip(line[q1..q2])
        && exists a :: q2 < a < |line| && (forall k :: q2 < k < a ==> IsSpace(line[k]))
                       && StepMatch(line).value.detail == Strip(line[a..|line|])
  {
    var q1 := SpaceEnd(line, 0);
    StepAfterShape(line, q1, LabelEnd(line, q1));
  }

  lemma StepAfterShape(line: string, q1: nat, q2: nat)
    requires q1 <= q2 <= |line| && Free(line, '\n')
    ensures StepAfter(line, q1, q2).Some? <==> q1 < q2 && q2 + 1 < |line| && line[q2] == ':'
    ensures StepAfter(line, q1, q2).Some? ==>
      StepAfter(line, q1, q2).value.name == Strip(line[q1..q2])
      && exists a :: q2 < a < |line| && (forall k :: q2 < k < a ==> IsSpace(line[k]))
                     && StepAfter(line, q1, q2).value.detail == Strip(line[a..|line|])
  {
    if q1 < q2 < |line| && line[q2] == ':' {
      RestOfLineFree(line, q2 + 1);
      if q2 + 1 < |line| {
        var ab := RestOfLine(line, q2 + 1).value;
        assert StepAfter(line, q1, q2) == Some(Step(Strip(line[q1..q2]), Strip(line[ab.0..ab.1])));
        assert q2 < ab.0 < |line| && (forall k :: q2 < k < ab.0 ==> IsSpace(line[k]));
        assert ab.1 == |line|;
        assert line[ab.0..ab.1] == line[ab.0..|line|];
        assert StepAfter(line, q1, q2).value.detail == Strip(line[ab.0..|line|]);
      }
    }
  }

  /** `BULLET_PATTERN` matches a line exactly when a bullet follows the
      leading blanks and at least one character follows the bullet; the
      detail is the stripped text after the blanks that follow it. */
  lemma BulletMatchShape(line: string)
    requires Free(line, '\n')
    ensures var q1 := SpaceEnd(line, 0);
      BulletMatch(line).Some? <==> q1 + 1 < |line| && BulletChar(line[q1])
    ensures var q1 := SpaceEnd(line, 0);
      BulletMatch(line).Some? ==>
        exists a :: q1 < a < |line| && (forall k :: q1 < k < a ==> IsSpace(line[k]))
                    && BulletMatch(line).value == Strip(line[a..|line|])
  {
    BulletAfterShape(line, SpaceEnd(line, 0));
  }

  lemma BulletAfterShape(line: string, q1: nat)
    requires q1 <= |line| && Free(line, '\n')
    ensures BulletAfter(line, q1).Some? <==> q1 + 1 < |line| && BulletChar(line[q1])
    ensures BulletAfter(line, q1).Some? ==>
      exists a :: q1 < a < |line| && (forall k :: q1 < k < a ==> IsSpace(line[k]))
                  && BulletAfter(line, q1).value == Strip(line[a..|line|])
  {
    if q1 < |line| && BulletChar(line[q1]) {
      RestOfLineFree(line, q1 + 1);
      if q1 + 1 < |line| {
        var ab := RestOfLine(line, q1 + 1).value;
        assert BulletAfter(line, q1) == Some(Strip(line[ab.0..ab.1]));
        assert q1 < ab.0 < |line| && (forall k :: q1 < k < ab.0 ==> IsSpace(line[k]));
        assert ab.1 == |line|;
        assert line[ab.0..ab.1] == line[ab.0..|line|];
        assert BulletAfter(line, q1).value == Strip(line[ab.0..|line|]);
      }
    }
  }

  /** A line gives a step exactly when, stripped, it is non-empty and one of
      the two patterns matches it; the step pattern is preferred, and a
      bullet's step is labelled by the first words of its detail. */
  lemma LineStepCases(raw: string)
    requires Free(raw, '\n')
    ensures Free(Strip(raw), '\n')
      && var line := Strip(raw);
      (LineStep(raw).Some? <==> line != [] && (StepMatch(line).Some? || BulletMatch(line).Some?))
      && (line != [] && StepMatch(line).Some? ==> LineStep(raw) == StepMatch(line))
      && (line != [] && StepMatch(line).None? && BulletMatch(line).Some? ==>
            LineStep(raw) == Some(Step(BulletLabel(BulletMatch(line).value), BulletMatch(line).value)))
  {
    StripFree(raw);
  }

  /** Stripping keeps a line free of line feeds. */
  lemma StripFree(s: string)
    requires Free(s, '\n')
    ensures Free(Strip(s), '\n')
  {
    var a := StripSlice(s);
  }

  /** The steps the line loop of `_extract_steps` collects. */
  function LineSteps(lines: seq<string>): (r: seq<Step>)
    requires forall k :: 0 <= k < |lines| ==> Free(lines[k], '\n')
    ensures |r| <= |lines|
  {
    if lines == [] then []
    else
      var init := lines[..|lines| - 1];
      assert forall k :: 0 <= k < |init| ==> init[k] == lines[k];
      LineSteps(init)
      + match LineStep(lines[|lines| - 1]) case Some(st) => [st] case None => []
  }

  /** `body.splitlines()` has no line feeds in its lines. */
  lemma SplitLinesFree(body: string)
    ensures forall k :: 0 <= k < |SplitLines(body)| ==> Free(SplitLines(body)[k], '\n')
  {
    var ls := SplitLines(body);
    var ends := SplitLinesLayout(body);
    forall k | 0 <= k < |ls| ensures Free(ls[k], '\n') {
      assert NoLineBreak(ls[k]);
    }
  }

  /** `.`, `!` or `?` */
  predicate SentenceEnd(c: char) {
    c == '.' || c == '!' || c == '?'
  }

  /** `re.split(r"[.!?]\s+", s)` from `start`, the scan being at `i`. */
  function Pieces(s: string, start: nat, i: nat): (r: seq<string>)
    requires start <= i <= |s|
    ensures |r| >= 1
    decreases |s| - i
  {
    if i >= |s| then [s[start..]]
    else if SentenceEnd(s[i]) && i + 1 < |s| && IsSpace(s[i + 1]) then
      var j := SpaceEnd(s, i + 1);
      [s[start..i]] + Pieces(s, j, j)
    else Pieces(s, start, i + 1)
  }

  /** A piece holds no sentence end followed by a space. */
  predicate Unbroken(p: string) {
    forall k :: 0 <= k < |p| - 1 ==> !(SentenceEnd(p[k]) && IsSpace(p[k + 1]))
  }

  /** No piece of the split holds a sentence break. */
  lemma {:induction false} PiecesUnbroken(s: string, start: nat, i: nat)
    requires start <= i <= |s|
    requires forall k :: start <= k < i ==> !(SentenceEnd(s[k]) && k + 1 < |s| && IsSpace(s[k + 1]))
    ensures forall t :: 0 <= t < |Pieces(s, start, i)| ==> Unbroken(Pieces(s, start, i)[t])
    decreases |s| - i
  {
    if i >= |s| {
      assert forall k :: 0 <= k < |s[start..]| - 1 ==> s[start..][k] == s[start + k];
    } else if SentenceEnd(s[i]) && i + 1 < |s| && IsSpace(s[i + 1]) {
      var j := SpaceEnd(s, i + 1);
      PiecesUnbroken(s, j, j);
      assert forall k :: 0 <= k < |s[start..i]| ==> s[start..i][k] == s[start + k];
      var r := Pieces(s, start, i);
      assert r == [s[start..i]] + Pieces(s, j, j);
      forall t | 0 <= t < |r| ensures Unbroken(r[t]) {
        if t > 0 {
          assert r[t] == Pieces(s, j, j)[t - 1];
        }
      }
    } else {
      PiecesUnbroken(s, start, i + 1);
    }
  }

  /** A separator the split removes: a sentence end and the whole run of
      whitespace after it. */
  predicate Separator(sep: string) {
    |sep| >= 2 && SentenceEnd(sep[0]) && forall k :: 1 <= k < |sep| ==> IsSpace(sep[k])
  }

  /** The text is `pieces[0] + seps[0] + pieces[1] + …`, every separator
      taking all the whitespace there is, so no later piece starts with it. */
  ghost predicate PiecesLayout(s: string, pieces: seq<string>, seps: seq<string>) {
    |pieces| == |seps| + 1
    && (forall k :: 0 <= k < |seps| ==> Separator(seps[k]))
    && (forall k :: 0 < k < |pieces| ==> pieces[k] == [] || !IsSpace(pieces[k][0]))
    && s == Weave(pieces, seps)
  }

  /** A piece and a separator in front of laid-out text. */
  lemma PiecesLayoutCons(p: string, sep: string, t: string, pieces: seq<string>, seps: seq<string>)
    requires PiecesLayout(t, pieces, seps) && Separator(sep)
    requires t == [] || !IsSpace(t[0])
    ensures PiecesLayout(p + sep + t, [p] + pieces, [sep] + seps)
  {
    var pieces', seps' := [p] + pieces, [sep] + seps;
    assert pieces'[1..] == pieces && seps'[1..] == seps;
    if pieces[0] != [] {
      if seps == [] {
        assert t == pieces[0];
      } else {
        assert t == pieces[0] + seps[0] + Weave(pieces[1..], seps[1..]);
      }
      assert t[0] == pieces[0][0];
    }
    forall k | 0 <= k < |seps'| ensures Separator(seps'[k]) {
      if k > 0 {
        assert seps'[k] == seps[k - 1];
      }
    }
    forall k | 0 < k < |pieces'| ensures pieces'[k] == [] || !IsSpace(pieces'[k][0]) {
      assert pieces'[k] == pieces[k - 1];
    }
  }

  /** The split from `start`, scanning at `i`, cuts `s[start..]` into its
      pieces and the separators between them. */
  lemma {:induction false} PiecesLayoutFrom(s: string, start: nat, i: nat) returns (seps: seq<string>)
    requires start <= i <= |s|
    ensures PiecesLayout(s[start..], Pieces(s, start, i), seps)
    decreases |s| - i
  {
    if i >= |s| {
      seps := [];
    } else if SentenceEnd(s[i]) && i + 1 < |s| && IsSpace(s[i + 1]) {
      var j := SpaceEnd(s, i + 1);
      var e := PiecesLayoutFrom(s, j, j);
      PiecesBreak(s, start, i, e);
      seps := [s[i..j]] + e;
    } else {
      seps := PiecesLayoutFrom(s, start, i + 1);
    }
  }

  /** The piece before a break and the separator, in front of the laid-out rest. */
  lemma PiecesBreak(s: string, start: nat, i: nat, e: seq<string>)
    requires start <= i && i + 1 < |s| && SentenceEnd(s[i]) && IsSpace(s[i + 1])
    requires PiecesLayout(s[SpaceEnd(s, i + 1)..], Pieces(s, SpaceEnd(s, i + 1), SpaceEnd(s, i + 1)), e)
    ensures PiecesLayout(s[start..], Pieces(s, start, i), [s[i..SpaceEnd(s, i + 1)]] + e)
  {
    var j := SpaceEnd(s, i + 1);
    var p, sep, rest := s[start..i], s[i..j], s[j..];
    SeparatorAt(s, i);
    PiecesLayoutCons(p, sep, rest, Pieces(s, j, j), e);
    SliceThree(s, start, i, j);
  }

  /** A sentence end and the whitespace run after it form a separator. */
  lemma SeparatorAt(s: string, i: nat)
    requires i + 1 < |s| && SentenceEnd(s[i]) && IsSpace(s[i + 1])
    ensures Separator(s[i..SpaceEnd(s, i + 1)])
  {
    var j := SpaceEnd(s, i + 1);
    assert forall k :: 1 <= k < j - i ==> s[i..j][k] == s[i + k];
  }

  /** A suffix cut in three. */
  lemma SliceThree(s: string, start: nat, i: nat, j: nat)
    requires start <= i <= j <= |s|
    ensures s[start..] == s[start..i] + s[i..j] + s[j..]
  {
  }

  /** `re.split(r"[.!?]\s+", s)` cuts the text at every sentence end followed
      by whitespace, removing the end and all the whitespace, and leaves
      pieces holding no such break. */
  lemma SentencePieces(s: string) returns (seps: seq<string>)
    ensures PiecesLayout(s, Pieces(s, 0, 0), seps)
    ensures forall t :: 0 <= t < |Pieces(s, 0, 0)| ==> Unbroken(Pieces(s, 0, 0)[t])
  {
    seps := PiecesLayoutFrom(s, 0, 0);
    assert s[0..] == s;
    PiecesUnbroken(s, 0, 0);
  }

  /** `[p.strip() for p in pieces if p.strip()]` */
  function NonBlank(pieces: seq<string>): (r: seq<string>)
    ensures forall k :: 0 <= k < |r| ==> r[k] != []
  {
    if pieces == [] then []
    else
      var init := pieces[..|pieces| - 1];
      NonBlank(init) + (if Strip(pieces[|pieces| - 1]) != [] then [Strip(pieces[|pieces| - 1])] else [])
  }

  /** The sentence fallback of `_extract_steps`: `Step1`, `Step2`, … over the
      non-blank sentences, or one step holding the stripped body. */
  function SentenceSteps(body: string): (r: seq<Step>)
    ensures |r| >= 1
  {
    var found := NonBlank(Pieces(body, 0, 0));
    var sentences := if found == [] then [Strip(body)] else found;
    seq(|sentences|, k requires 0 <= k < |sentences| => Step("Step" + NatToString(k + 1), sentences[k]))
  }

  /** `_extract_steps(body)` */
  function StepsOf(body: string): (r: seq<Step>)
    ensures r != []
  {
    SplitLinesFree(body);
    var steps := LineSteps(SplitLines(body));
    if steps != [] then steps else SentenceSteps(body)
  }

  /** `h` is the pattern's match at its start and has a header's shape. */
  ghost predicate Matched(s: string, h: Header) {
    h.start <= |s| && HeaderAt(s, h.start) == Some(h) && HeaderShape(s, h)
  }

  /** Every match `finditer` reports is the pattern's match at its start,
      and has the shape of a header. */
  lemma {:induction false} HeadersMatch(s: string, pos: nat)
    requires pos <= |s|
    ensures forall h :: h in Headers(s, pos) ==> Matched(s, h)
    decreases |s| - pos
  {
    if pos < |s| {
      if LineStart(s, pos) && HeaderAt(s, pos).Some? {
        var h := HeaderAt(s, pos).value;
        HeaderAtShape(s, pos);
        assert Matched(s, h);
        HeadersMatch(s, h.end);
        assert Headers(s, pos) == [h] + Headers(s, h.end);
      } else {
        HeadersMatch(s, pos + 1);
      }
    }
  }

  /** Without a match, the pattern matches at no line start. */
  lemma {:induction false} NoHeaders(s: string, pos: nat)
    requires pos <= |s| && Headers(s, pos) == []
    ensures forall p :: pos <= p < |s| && LineStart(s, p) ==> HeaderAt(s, p).None?
    decreases |s| - pos
  {
    if pos < |s| {
      NoHeaders(s, pos + 1);
    }
  }

  // ---------------------------------------------------------------------
  // parse
  // ---------------------------------------------------------------------

  /** The title of the `k`-th header (`match.group(2).strip()` or `Chain{k+1}`). */
  function TitleOf(s: string, hs: seq<Header>, k: nat): string
    requires Ordered(s, hs) && k < |hs|
  {
    var title := Strip(s[hs[k].titleStart..hs[k].end]);
    if title == [] then "Chain" + NatToString(k + 1) else title
  }

  /** The body of the `k`-th header: from its end to the next header's
      start (or the end of the text), stripped. */
  function BodyOf(s: string, hs: seq<Header>, k: nat): string
    requires Ordered(s, hs) && k < |hs|
  {
    var end := if k + 1 < |hs| then hs[k + 1].start else |s|;
    Strip(s[hs[k].end..end])
  }

  /** The segment of the `k`-th header. */
  function SegmentAt(s: string, hs: seq<Header>, k: nat): ChainSegment
    requires Ordered(s, hs) && k < |hs|
  {
    ChainSegment(TitleOf(s, hs, k), StepsOf(BodyOf(s, hs, k)))
  }

  /** The segments of all headers, in order. */
  function SectionList(s: string, hs: seq<Header>): (r: seq<ChainSegment>)
    requires Ordered(s, hs)
    ensures |r| == |hs| && forall k :: 0 <= k < |r| ==> r[k] == SegmentAt(s, hs, k)
  {
    seq(|hs|, k requires 0 <= k < |hs| => SegmentAt(s, hs, k))
  }

  /** The segments that have steps, in order (`if steps:`). */
  function Keep(segments: seq<ChainSegment>): (r: seq<ChainSegment>)
    ensures forall k :: 0 <= k < |r| ==> r[k].steps != []
  {
    if segments == [] then []
    else
      var last := segments[|segments| - 1];
      Keep(segments[..|segments| - 1]) + (if last.steps != [] then [last] else [])
  }

  /** Nothing is dropped when every segment has steps. */
  lemma {:induction false} KeepAll(segments: seq<ChainSegment>)
    requires forall k :: 0 <= k < |segments| ==> segments[k].steps != []
    ensures Keep(segments) == segments
  {
    if segments != [] {
      var init := segments[..|segments| - 1];
      assert forall k :: 0 <= k < |init| ==> init[k] == segments[k];
      KeepAll(init);
      assert init + [segments[|segments| - 1]] == segments;
    }
  }

  lemma KeepSnoc(segments: seq<ChainSegment>, i: nat)
    requires i < |segments|
    ensures Keep(segments[..i + 1])
         == Keep(segments[..i]) + (if segments[i].steps != [] then [segments[i]] else [])
  {
    assert segments[..i + 1][..i] == segments[..i];
  }

  /** `ChainReasoningParser.parse(text)`: every segment has at least one step. */
  function SegmentsOf(text: string): (r: seq<ChainSegment>)
    ensures forall k :: 0 <= k < |r| ==> r[k].steps != []
  {
    var t := Strip(text);
    if t == [] then []
    else
      var hs := Headers(t, 0);
      if hs != [] then Keep(SectionList(t, hs))
      else [ChainSegment("ReasoningChain", StepsOf(t))]
  }

  /** Every header gives exactly one segment, in order: its title and the
      steps of the text up to the next header (`StepsOf` is never empty,
      so no header's segment is dropped). */
  lemma SectionsOnePerHeader(s: string, hs: seq<Header>)
    requires Ordered(s, hs)
    ensures Keep(SectionList(s, hs)) == SectionList(s, hs)
  {
    var list := SectionList(s, hs);
    forall k | 0 <= k < |list| ensures list[k].steps != [] {
      assert list[k] == SegmentAt(s, hs, k);
    }
    KeepAll(list);
  }

  /** Blank text has no segments; text without headers is one segment
      named `ReasoningChain` holding the steps of the whole text; otherwise
      there is one segment per header, made of that header's title and body. */
  lemma ParseShape(text: string)
    ensures AllSpace(text) <==> SegmentsOf(text) == []
    ensures var t := Strip(text);
      t != [] && Headers(t, 0) == [] ==> SegmentsOf(text) == [ChainSegment("ReasoningChain", StepsOf(t))]
    ensures var t := Strip(text);
      t != [] && Headers(t, 0) != [] ==>
        |SegmentsOf(text)| == |Headers(t, 0)|
        && forall k :: 0 <= k < |Headers(t, 0)| ==> SegmentsOf(text)[k] == SegmentAt(t, Headers(t, 0), k)
  {
    var t := Strip(text);
    if t != [] && Headers(t, 0) != [] {
      SectionsOnePerHeader(t, Headers(t, 0));
    }
  }

  // ---------------------------------------------------------------------
  // The loops of _extract_steps and parse
  // ---------------------------------------------------------------------

  lemma LineStepsSnoc(lines: seq<string>, i: nat)
    requires i < |lines| && forall k :: 0 <= k < |lines| ==> Free(lines[k], '\n')
    ensures LineSteps(lines[..i + 1])
         == LineSteps(lines[..i]) + match LineStep(lines[i]) case Some(st) => [st] case None => []
  {
    assert lines[..i + 1][..i] == lines[..i];
  }

  /** `ChainReasoningParser._extract_steps(body)` */
  method ExtractSteps(body: string) returns (steps: seq<Step>)
    ensures steps == StepsOf(body)
  {
    var lines := SplitLines(body);
    SplitLinesFree(body);
    steps := [];
    for i := 0 to |lines|
      invariant steps == LineSteps(lines[..i])
    {
      LineStepsSnoc(lines, i);
      var line := Strip(lines[i]);
      StripFree(lines[i]);
      if line == [] {
        continue;
      }
      var m := StepMatch(line);
      if m.Some? {
        steps := steps + [m.value];
        continue;
      }
      var b := BulletMatch(line);
      if b.Some? {
        var detail := b.value;
        steps := steps + [Step(BulletLabel(detail), detail)];
        continue;
      }
    }
    assert lines[..|lines|] == lines;
    if steps != [] {
      return;
    }
    steps := SentenceSteps(body);
  }

  /** `ChainReasoningParser.parse(text)` */
  method Parse(text: string) returns (segments: seq<ChainSegment>)
    ensures segments == SegmentsOf(text)
  {
    var t := Strip(text);
    if t == [] {
      return [];
    }
    var matches := Headers(t, 0);
    if matches != [] {
      ghost var all := SectionList(t, matches);
      segments := [];
      for idx := 0 to |matches|
        invariant segments == Keep(all[..idx])
      {
        var start := matches[idx].end;
        var end := if idx + 1 < |matches| then matches[idx + 1].start else |t|;
        var title := Strip(t[matches[idx].titleStart..matches[idx].end]);
        if title == [] {
          title := "Chain" + NatToString(idx + 1);
        }
        var body := Strip(t[start..end]);
        var steps := ExtractSteps(body);
        KeepSnoc(all, idx);
        assert all[idx] == ChainSegment(title, steps);
        if steps != [] {
          segments := segments + [ChainSegment(title, steps)];
        }
      }
      assert all[..|matches|] == all;
      return;
    }
    var steps := ExtractSteps(t);
    segments := [ChainSegment("ReasoningChain", steps)];
  }

  // ---------------------------------------------------------------------
  // _segments_to_fol and translate
  // ---------------------------------------------------------------------

  /** The constant naming the segment at 1-based position `idx`. */
  function ChainConst(segment: ChainSegment, idx: nat): string {
    ToConstant(if segment.title != "" then segment.title else "Chain" + NatToString(idx))
  }

  /** The constant naming a step at 1-based position `order`. */
  function LabelConst(step: Step, order: nat): string {
    ToConstant(if step.name != "" then step.name else "Step" + NatToString(order))
  }

  /** The `Step` and `Supports` facts of the first steps of a chain. */
  function StepFacts(chain: string, steps: seq<Step>): (r: seq<string>)
    ensures |r| == 2 * |steps|
  {
    if steps == [] then []
    else
      var order := |steps|;
      var step := steps[order - 1];
      StepFacts(chain, steps[..order - 1])
      + ["Step(" + chain + ", " + NatToString(order) + ", " + LabelConst(step, order) + ")",
         "Supports(" + LabelConst(step, order) + ", " + ToConstant(step.detail) + ")"]
  }

  /** The facts of one segment at 1-based position `idx`. */
  function Block(segment: ChainSegment, idx: nat): (r: seq<string>)
    ensures |r| == 1 + 2 * |segment.steps|
  {
    var chain := ChainConst(segment, idx);
    ["Chain(" + chain + ")"] + StepFacts(chain, segment.steps)
  }

  /** The lines `_segments_to_fol` collects. */
  function FolLines(segments: seq<ChainSegment>): seq<string> {
    if segments == [] then []
    else FolLines(segments[..|segments| - 1]) + Block(segments[|segments| - 1], |segments|)
  }

  /** The number of steps over all segments. */
  function StepCount(segments: seq<ChainSegment>): nat {
    if segments == [] then 0
    else StepCount(segments[..|segments| - 1]) + |segments[|segments| - 1].steps|
  }

  /** One `Chain` line per segment and two lines per step. */
  lemma {:induction false} FolLineCount(segments: seq<ChainSegment>)
    ensures |FolLines(segments)| == |segments| + 2 * StepCount(segments)
  {
    if segments != [] {
      FolLineCount(segments[..|segments| - 1]);
    }
  }

  /** The `j`-th step of a chain (from 0) gives a `Step` fact numbered
      `j + 1` and then its `Supports` fact. */
  lemma {:induction false} StepFactsAt(chain: string, steps: seq<Step>, j: nat)
    requires j < |steps|
    ensures StepFacts(chain, steps)[2 * j]
         == "Step(" + chain + ", " + NatToString(j + 1) + ", " + LabelConst(steps[j], j + 1) + ")"
    ensures StepFacts(chain, steps)[2 * j + 1]
         == "Supports(" + LabelConst(steps[j], j + 1) + ", " + ToConstant(steps[j].detail) + ")"
  {
    var init := steps[..|steps| - 1];
    if j < |steps| - 1 {
      StepFactsAt(chain, init, j);
      assert init[j] == steps[j];
    }
  }

  lemma StepFactsSnoc(chain: string, steps: seq<Step>, i: nat)
    requires i < |steps|
    ensures StepFacts(chain, steps[..i + 1]) == StepFacts(chain, steps[..i])
      + ["Step(" + chain + ", " + NatToString(i + 1) + ", " + LabelConst(steps[i], i + 1) + ")",
         "Supports(" + LabelConst(steps[i], i + 1) + ", " + ToConstant(steps[i].detail) + ")"]
  {
    assert steps[..i + 1][..i] == steps[..i];
  }

  lemma FolLinesSnoc(segments: seq<ChainSegment>, i: nat)
    requires i < |segments|
    ensures FolLines(segments[..i + 1]) == FolLines(segments[..i]) + Block(segments[i], i + 1)
  {
    assert segments[..i + 1][..i] == segments[..i];
  }

  /** The facts of one segment, written step by step. */
  method AppendBlock(lines0: seq<string>, segment: ChainSegment, idx: nat) returns (lines: seq<string>)
    ensures lines == lines0 + Block(segment, idx)
  {
    var chainConst := ChainConst(segment, idx);
    lines := lines0 + ["Chain(" + chainConst + ")"];
    ghost var head := lines;
    for order := 0 to |segment.steps|
      invariant lines == head + StepFacts(chainConst, segment.steps[..order])
    {
      var step := segment.steps[order];
      var labelConst := LabelConst(step, order + 1);
      var detailConst := ToConstant(step.detail);
      ghost var done := StepFacts(chainConst, segment.steps[..order]);
      var stepLine := "Step(" + chainConst + ", " + NatToString(order + 1) + ", " + labelConst + ")";
      var supportsLine := "Supports(" + labelConst + ", " + detailConst + ")";
      lines := lines + [stepLine];
      lines := lines + [supportsLine];
      StepFactsSnoc(chainConst, segment.steps, order);
      AppendTwo(head, done, stepLine, supportsLine);
    }
    assert segment.steps[..|segment.steps|] == segment.steps;
    AppendAssoc(lines0, ["Chain(" + chainConst + ")"], StepFacts(chainConst, segment.steps));
  }

  lemma AppendTwo<T>(p: seq<T>, f: seq<T>, x: T, y: T)
    ensures p + f + [x] + [y] == p + (f + [x, y])
  {
  }

  lemma AppendAssoc<T>(a: seq<T>, b: seq<T>, c: seq<T>)
    ensures a + b + c == a + (b + c)
  {
  }

  /** `_segments_to_fol(segments)` */
  method SegmentsToFol(segments: seq<ChainSegment>) returns (fol: string)
    ensures fol == Join("\n", FolLines(segments))
  {
    var lines: seq<string> := [];
    for idx := 0 to |segments|
      invariant lines == FolLines(segments[..idx])
    {
      FolLinesSnoc(segments, idx);
      lines := AppendBlock(lines, segments[idx], idx + 1);
    }
    assert segments[..|segments|] == segments;
    fol := Join("\n", lines);
  }

  /** `translate(text)`: only blank text translates to nothing. */
  function Translate(text: string): (r: Option<string>)
    ensures r.None? <==> AllSpace(text)
  {
    ParseShape(text);
    var segments := SegmentsOf(text);
    if segments == [] then None else Some(Join("\n", FolLines(segments)))
  }

  /** No line holds a line break. */
  lemma ConstFree(text: string)
    ensures Free(ToConstant(text), '\n')
  {
    ToConstantSpells(text);
    var r := ToConstant(text);
    assert forall i :: 0 <= i < |r| ==> IsAlnum(r[i]);
  }

  lemma {:induction false} StepFactsFree(chain: string, steps: seq<Step>)
    requires Free(chain, '\n')
    ensures LinesFree(StepFacts(chain, steps))
  {
    if steps != [] {
      var order := |steps|;
      var step := steps[order - 1];
      StepFactsFree(chain, steps[..order - 1]);
      FactsFree(chain, step, order);
      LinesFreeAppend(StepFacts(chain, steps[..order - 1]),
        "Step(" + chain + ", " + NatToString(order) + ", " + LabelConst(step, order) + ")",
        "Supports(" + LabelConst(step, order) + ", " + ToConstant(step.detail) + ")");
    }
  }

  /** The two facts of one step hold no line break. */
  lemma FactsFree(chain: string, step: Step, order: nat)
    requires Free(chain, '\n')
    ensures Free("Step(" + chain + ", " + NatToString(order) + ", " + LabelConst(step, order) + ")", '\n')
    ensures Free("Supports(" + LabelConst(step, order) + ", " + ToConstant(step.detail) + ")", '\n')
  {
    ConstFree(if step.name != "" then step.name else "Step" + NatToString(order));
    ConstFree(step.detail);
    StepFactFree(chain, NatToString(order), LabelConst(step, order));
    SupportsFactFree(LabelConst(step, order), ToConstant(step.detail));
  }

  lemma StepFactFree(chain: string, digits: string, name: string)
    requires Free(chain, '\n') && Free(name, '\n')
    requires forall i :: 0 <= i < |digits| ==> IsDigit(digits[i])
    ensures Free("Step(" + chain + ", " + digits + ", " + name + ")", '\n')
  {
    assert Free(digits, '\n');
    FreeConcat("Step(", chain, '\n');
    FreeConcat("Step(" + chain, ", ", '\n');
    FreeConcat("Step(" + chain + ", ", digits, '\n');
    FreeConcat("Step(" + chain + ", " + digits, ", ", '\n');
    FreeConcat("Step(" + chain + ", " + digits + ", ", name, '\n');
    FreeConcat("Step(" + chain + ", " + digits + ", " + name, ")", '\n');
  }

  lemma SupportsFactFree(name: string, detail: string)
    requires Free(name, '\n') && Free(detail, '\n')
    ensures Free("Supports(" + name + ", " + detail + ")", '\n')
  {
    FreeConcat("Supports(", name, '\n');
    FreeConcat("Supports(" + name, ", ", '\n');
    FreeConcat("Supports(" + name + ", ", detail, '\n');
    FreeConcat("Supports(" + name + ", " + detail, ")", '\n');
  }

  lemma LinesFreeAppend(lines: seq<string>, x: string, y: string)
    requires LinesFree(lines) && Free(x, '\n') && Free(y, '\n')
    ensures LinesFree(lines + [x, y])
  {
    assert forall k :: 0 <= k < |lines + [x, y]| ==> (lines + [x, y])[k] == if k < |lines| then lines[k] else [x, y][k - |lines|];
  }

  lemma {:induction false} FolLinesFree(segments: seq<ChainSegment>)
    ensures LinesFree(FolLines(segments))
  {
    if segments != [] {
      var n := |segments|;
      FolLinesFree(segments[..n - 1]);
      BlockFree(segments[n - 1], n);
      LinesFreeConcat(FolLines(segments[..n - 1]), Block(segments[n - 1], n));
    }
  }

  lemma BlockFree(segment: ChainSegment, idx: nat)
    ensures LinesFree(Block(segment, idx))
  {
    var chain := ChainConst(segment, idx);
    ConstFree(if segment.title != "" then segment.title else "Chain" + NatToString(idx));
    StepFactsFree(chain, segment.steps);
    FreeConcat("Chain(", chain, '\n');
    FreeConcat("Chain(" + chain, ")", '\n');
    LinesFreeConcat(["Chain(" + chain + ")"], StepFacts(chain, segment.steps));
  }

  /** The translation is its fact lines joined by line breaks: splitting it
      at the breaks gives one `Chain` line per segment and a `Step` and a
      `Supports` line per step. */
  lemma TranslateLines(text: string)
    requires Translate(text).Some?
    ensures var segments := SegmentsOf(text);
      Split(Translate(text).value, '\n') == FolLines(segments)
      && |FolLines(segments)| == |segments| + 2 * StepCount(segments)
  {
    var segments := SegmentsOf(text);
    FolLinesFree(segments);
    FolLineCount(segments);
    JoinSplit(FolLines(segments), '\n');
  }
}
