/** Dual-layer grouping of analysed reasoning into families
    (`mprg/grouper.py`): the structural (FOL) similarity of two traces, the
    FOL similarity matrix, the seed-based clustering that needs both the FOL
    and the semantic similarity to reach their thresholds, and the family
    records. The semantic matrix is the vector store's batch similarity
    matrix; fresh family ids are given as a parameter. */
module Grouper {
  import opened Text
  import opened Collections
  import opened Groups
  import Cluster
  import Vectors

  /** The fields of an `AnalyzedReasoning` that the grouper reads. */
  datatype Analyzed = Analyzed(
    agentId: string,
    originalExplanation: string,
    folTranslation: string,
    folPredicates: seq<string>,
    folStructureHash: string,
    assumptions: seq<string>,
    keyIdea: string)

  /** `ReasoningFamily` */
  datatype ReasoningFamily = ReasoningFamily(
    familyId: string,
    memberIds: seq<string>,
    sharedFolPattern: string,
    sharedKeyIdea: string,
    sharedAssumptions: seq<string>,
    folSimilarity: real,
    semanticSimilarity: real,
    combinedScore: real,
    representativeExplanation: string)

  // ---------------------------------------------------------------------
  // _normalize_predicates
  // ---------------------------------------------------------------------

  /** The length of the run of whitespace (`\s*`) that `s` starts with. */
  function SpaceRun(s: string): (n: nat)
    ensures n <= |s| && (forall i :: 0 <= i < n ==> IsSpace(s[i])) && (n < |s| ==> !IsSpace(s[n]))
  {
    if s == [] || !IsSpace(s[0]) then 0 else 1 + SpaceRun(s[1..])
  }

  /** The length of the run of lower-case letters (`[a-z]*`) that `s` starts with. */
  function LowerRun(s: string): (n: nat)
    ensures n <= |s| && (forall i :: 0 <= i < n ==> IsLower(s[i])) && (n < |s| ==> !IsLower(s[n]))
  {
    if s == [] || !IsLower(s[0]) then 0 else 1 + LowerRun(s[1..])
  }

  /** The length of the match of `,\s*[A-Z][a-z]+\)` at the start of `s`, or
      0 when there is none. Neither `\s*` nor `[a-z]+` can give characters
      back to the part after it, so the greedy runs decide the match. */
  function ConstantAt(s: string): (n: nat)
    ensures n == 0 || 4 <= n <= |s|
  {
    if s == [] || s[0] != ',' then 0
    else
      var u := 1 + SpaceRun(s[1..]);
      if u >= |s| || !IsUpper(s[u]) then 0
      else
        var close := u + 1 + LowerRun(s[u + 1..]);
        if close == u + 1 || close >= |s| || s[close] != ')' then 0 else close + 1
  }

  /** `s[..n]` matches `,\s*[A-Z][a-z]+\)`: a comma, whitespace, an
      upper-case letter at `u`, one or more lower-case letters and `)`. */
  predicate ConstantMatch(s: string, n: nat) {
    4 <= n <= |s| && s[0] == ',' && s[n - 1] == ')'
    && exists u :: 1 <= u <= n - 3 && IsUpper(s[u])
         && (forall i :: 1 <= i < u ==> IsSpace(s[i]))
         && (forall i :: u < i < n - 1 ==> IsLower(s[i]))
  }

  /** `ConstantAt` finds the pattern's match at the start of `s` when there
      is one, and that match is the only one; 0 means there is none. */
  lemma ConstantAtMatch(s: string)
    ensures ConstantAt(s) > 0 ==> ConstantMatch(s, ConstantAt(s))
    ensures forall m: nat :: ConstantMatch(s, m) ==> m == ConstantAt(s)
  {
    if s != [] && s[0] == ',' {
      var u := 1 + SpaceRun(s[1..]);
      SpaceRunAt(s, u);
      if u < |s| && IsUpper(s[u]) {
        var close := u + 1 + LowerRun(s[u + 1..]);
        LowerRunAt(s, u, close);
        if ConstantAt(s) > 0 {
          assert ConstantMatch(s, close + 1);
        }
        forall m: nat | ConstantMatch(s, m) ensures m == ConstantAt(s) {
          var u' := MatchWitness(s, m);
          MatchEnds(s, u, close, u', m);
        }
      } else {
        forall m: nat | ConstantMatch(s, m) ensures false {
          var u' := MatchWitness(s, m);
          MatchStartsAt(s, u, u', m);
        }
      }
    }
  }

  /** The whitespace after the comma runs from 1 to `u`. */
  lemma SpaceRunAt(s: string, u: nat)
    requires s != [] && u == 1 + SpaceRun(s[1..])
    ensures u <= |s| && (forall i :: 1 <= i < u ==> IsSpace(s[i])) && (u < |s| ==> !IsSpace(s[u]))
  {
    forall i | 1 <= i < u ensures IsSpace(s[i]) {
      assert s[i] == s[1..][i - 1];
    }
    if u < |s| {
      assert s[u] == s[1..][u - 1];
    }
  }

  /** The lower-case letters after the capital run from `u + 1` to `close`. */
  lemma LowerRunAt(s: string, u: nat, close: nat)
    requires u < |s| && close == u + 1 + LowerRun(s[u + 1..])
    ensures close <= |s| && (forall i :: u < i < close ==> IsLower(s[i])) && (close < |s| ==> !IsLower(s[close]))
  {
    forall i | u < i < close ensures IsLower(s[i]) {
      assert s[i] == s[u + 1..][i - u - 1];
    }
    if close < |s| {
      assert s[close] == s[u + 1..][close - u - 1];
    }
  }

  /** The position of the capital in a match. */
  lemma MatchWitness(s: string, m: nat) returns (u: nat)
    requires ConstantMatch(s, m)
    ensures 1 <= u <= m - 3 && IsUpper(s[u])
    ensures forall i :: 1 <= i < u ==> IsSpace(s[i])
    ensures forall i :: u < i < m - 1 ==> IsLower(s[i])
  {
    u :| 1 <= u <= m - 3 && IsUpper(s[u])
      && (forall i :: 1 <= i < u ==> IsSpace(s[i]))
      && (forall i :: u < i < m - 1 ==> IsLower(s[i]));
  }

  /** A match's capital sits where the whitespace run ends. */
  lemma MatchStartsAt(s: string, u: nat, u': nat, m: nat)
    requires 1 <= u' <= m - 3 && m <= |s| && IsUpper(s[u']) && forall i :: 1 <= i < u' ==> IsSpace(s[i])
    requires 1 <= u <= |s| && (forall i :: 1 <= i < u ==> IsSpace(s[i])) && (u < |s| ==> !IsSpace(s[u]))
    ensures u' == u && IsUpper(s[u])
  {
    assert !IsSpace(s[u']);
  }

  /** A match ends just after the run of lower-case letters that follows its capital. */
  lemma MatchEnds(s: string, u: nat, close: nat, u': nat, m: nat)
    requires ConstantMatch(s, m) && 1 <= u' <= m - 3 && IsUpper(s[u'])
    requires (forall i :: 1 <= i < u' ==> IsSpace(s[i])) && (forall i :: u' < i < m - 1 ==> IsLower(s[i]))
    requires 1 <= u <= |s| && (forall i :: 1 <= i < u ==> IsSpace(s[i])) && (u < |s| ==> !IsSpace(s[u]))
    requires u < close <= |s| && (forall i :: u < i < close ==> IsLower(s[i])) && (close < |s| ==> !IsLower(s[close]))
    ensures m - 1 == close
  {
    MatchStartsAt(s, u, u', m);
    assert !IsLower(s[m - 1]);
  }

  /** `re.sub(r',\s*[A-Z][a-z]+\)', ', X)', s)`: the matches, found left to
      right without overlapping, are each replaced by `", X)"`. */
  function SubConstants(s: string): (r: string)
    decreases |s|
  {
    if s == [] then []
    else
      var n := ConstantAt(s);
      if n > 0 then ", X)" + SubConstants(s[n..]) else [s[0]] + SubConstants(s[1..])
  }

  /** A character other than a comma starts no match and is copied. */
  lemma SubConstantsCopy(c: char, t: string)
    requires c != ','
    ensures SubConstants([c] + t) == [c] + SubConstants(t)
  {
    assert ([c] + t)[1..] == t;
  }

  /** The replacement text starts no match. */
  lemma ReplacementNoMatch(x: string)
    requires |x| >= 4 && x[0] == ',' && x[1] == ' ' && x[2] == 'X' && x[3] == ')'
    ensures ConstantAt(x) == 0
  {
    assert x[1..][0] == ' ' && x[1..][1..][0] == 'X';
    assert SpaceRun(x[1..]) == 1;
    assert x[3..][0] == ')';
  }

  /** The replacement text holds no match, so it is copied as it is. */
  lemma SubConstantsReplacement(r: string)
    ensures SubConstants(", X)" + r) == ", X)" + SubConstants(r)
  {
    var y3 := [')'] + r;
    var y2 := ['X'] + y3;
    var y1 := [' '] + y2;
    var x := [','] + y1;
    ReplacementText(r);
    ReplacementNoMatch(x);
    assert x[1..] == y1;
    assert SubConstants(x) == [','] + SubConstants(y1);
    SubConstantsCopy(' ', y2);
    SubConstantsCopy('X', y3);
    SubConstantsCopy(')', r);
    ReplacementText(SubConstants(r));
  }

  lemma ReplacementText(o: string)
    ensures [','] + ([' '] + (['X'] + ([')'] + o))) == ", X)" + o
  {
  }

  /** A match is replaced by text starting with a comma. */
  lemma SubConstantsHead(t: string)
    requires ConstantAt(t) > 0
    ensures SubConstants(t) != [] && SubConstants(t)[0] == ','
  {
  }

  /** Up to its first comma, the output is the input. */
  lemma {:induction false} SubConstantsPrefix(t: string, k: nat)
    requires k <= |SubConstants(t)| && forall i :: 0 <= i < k ==> SubConstants(t)[i] != ','
    ensures k <= |t| && forall i :: 0 <= i < k ==> SubConstants(t)[i] == t[i]
    decreases |t|
  {
    if t != [] && k > 0 {
      var o := SubConstants(t);
      if ConstantAt(t) > 0 {
        SubConstantsHead(t);
        assert false;
      }
      var r := SubConstants(t[1..]);
      assert o == [t[0]] + r;
      forall i | 0 <= i < k - 1 ensures r[i] != ',' {
        assert r[i] == o[i + 1];
      }
      SubConstantsPrefix(t[1..], k - 1);
      forall i | 0 <= i < k ensures o[i] == t[i] {
        if i > 0 {
          assert o[i] == r[i - 1] && t[i] == t[1..][i - 1];
        }
      }
    }
  }

  /** A match holds no comma after its first character. */
  lemma MatchNoComma(x: string, m: nat)
    requires ConstantMatch(x, m)
    ensures forall i :: 1 <= i < m ==> x[i] != ','
  {
    var u := MatchWitness(x, m);
  }

  /** Whether `s[..m]` is a match depends on `s[..m]` alone. */
  lemma ConstantMatchPrefix(s: string, s': string, m: nat)
    requires ConstantMatch(s, m) && m <= |s'| && forall i :: 0 <= i < m ==> s[i] == s'[i]
    ensures ConstantMatch(s', m)
  {
    var u := MatchWitness(s, m);
    assert IsUpper(s'[u]);
  }

  /** A match at an input comma in the output covers copied input only. */
  lemma OutputAgrees(s: string, m: nat)
    requires s != [] && s[0] == ',' && ConstantMatch([','] + SubConstants(s[1..]), m)
    ensures m <= |s| && forall j :: 0 <= j < m ==> ([','] + SubConstants(s[1..]))[j] == s[j]
  {
    var r := SubConstants(s[1..]);
    var x := [','] + r;
    MatchNoComma(x, m);
    forall i | 0 <= i < m - 1 ensures r[i] != ',' {
      assert r[i] == x[i + 1];
    }
    SubConstantsPrefix(s[1..], m - 1);
    forall j | 0 <= j < m ensures x[j] == s[j] {
      if j > 0 {
        assert x[j] == r[j - 1] && s[j] == s[1..][j - 1];
      }
    }
  }

  /** A comma that starts no match in the input starts none in the output. */
  lemma NoNewMatch(s: string)
    requires s != [] && s[0] == ',' && ConstantAt(s) == 0
    ensures ConstantAt([','] + SubConstants(s[1..])) == 0
  {
    var x := [','] + SubConstants(s[1..]);
    ConstantAtMatch(x);
    if ConstantAt(x) > 0 {
      OutputAgrees(s, ConstantAt(x));
      ConstantMatchPrefix(x, s, ConstantAt(x));
      ConstantAtMatch(s);
    }
  }

  /** Normalising a predicate twice gives what normalising it once gives. */
  lemma {:induction false} SubConstantsIdempotent(s: string)
    ensures SubConstants(SubConstants(s)) == SubConstants(s)
    decreases |s|
  {
    if s != [] {
      var n := ConstantAt(s);
      if n > 0 {
        SubConstantsIdempotent(s[n..]);
        SubConstantsReplacement(SubConstants(s[n..]));
      } else {
        var r := SubConstants(s[1..]);
        SubConstantsIdempotent(s[1..]);
        if s[0] == ',' {
          NoNewMatch(s);
          assert ([s[0]] + r)[1..] == r;
        } else {
          SubConstantsCopy(s[0], r);
        }
      }
    }
  }

  /** A predicate without a comma is left as it is. */
  lemma {:induction false} SubConstantsNoComma(s: string)
    requires ',' !in s
    ensures SubConstants(s) == s
  {
    if s != [] {
      assert ',' !in s[1..] by {
        assert forall i :: 0 <= i < |s[1..]| ==> s[1..][i] == s[i + 1];
      }
      SubConstantsNoComma(s[1..]);
    }
  }

  /** `_normalize_predicates(predicates)` */
  function NormalizePredicates(preds: seq<string>): (r: seq<string>)
    ensures |r| == |preds| && forall i :: 0 <= i < |preds| ==> r[i] == SubConstants(preds[i])
  {
    seq(|preds|, i requires 0 <= i < |preds| => SubConstants(preds[i]))
  }

  // ---------------------------------------------------------------------
  // _fol_similarity
  // ---------------------------------------------------------------------

  /** The predicate term: `0.6 * jaccard` when both sets are non-empty, else nothing. */
  function PredicateTerm(a: Analyzed, b: Analyzed): real {
    var predA := SetOf(NormalizePredicates(a.folPredicates));
    var predB := SetOf(NormalizePredicates(b.folPredicates));
    if predA != {} && predB != {} then Cluster.Jaccard(predA, predB) * 0.6 else 0.0
  }

  /** The assumption term: `0.4 * jaccard` when both sets are non-empty, else nothing. */
  function AssumptionTerm(a: Analyzed, b: Analyzed): real {
    var assumeA := SetOf(a.assumptions);
    var assumeB := SetOf(b.assumptions);
    if assumeA != {} && assumeB != {} then Cluster.Jaccard(assumeA, assumeB) * 0.4 else 0.0
  }

  /** `_fol_similarity(a, b)`: 1.0 for equal structure hashes, else the two
      overlap terms added and capped at 1.0. */
  function FolSimilarity(a: Analyzed, b: Analyzed): (r: real)
    ensures 0.0 <= r <= 1.0
    ensures a.folStructureHash == b.folStructureHash ==> r == 1.0
  {
    if a.folStructureHash == b.folStructureHash then 1.0
    else
      var score := PredicateTerm(a, b) + AssumptionTerm(a, b);
      if 1.0 < score then 1.0 else score
  }

  /** The terms can reach 0.6 and 0.4 at most, so the cap never applies. */
  lemma FolSimilarityUncapped(a: Analyzed, b: Analyzed)
    requires a.folStructureHash != b.folStructureHash
    ensures 0.0 <= PredicateTerm(a, b) <= 0.6 && 0.0 <= AssumptionTerm(a, b) <= 0.4
    ensures FolSimilarity(a, b) == PredicateTerm(a, b) + AssumptionTerm(a, b)
  {
  }

  /** The FOL similarity does not depend on the order of its arguments. */
  lemma FolSimilaritySymmetric(a: Analyzed, b: Analyzed)
    ensures FolSimilarity(a, b) == FolSimilarity(b, a)
  {
    PredicateTermSymmetric(a, b);
    AssumptionTermSymmetric(a, b);
  }

  lemma PredicateTermSymmetric(a: Analyzed, b: Analyzed)
    ensures PredicateTerm(a, b) == PredicateTerm(b, a)
  {
    Cluster.JaccardSymmetric(SetOf(NormalizePredicates(a.folPredicates)), SetOf(NormalizePredicates(b.folPredicates)));
  }

  lemma AssumptionTermSymmetric(a: Analyzed, b: Analyzed)
    ensures AssumptionTerm(a, b) == AssumptionTerm(b, a)
  {
    Cluster.JaccardSymmetric(SetOf(a.assumptions), SetOf(b.assumptions));
  }

  // ---------------------------------------------------------------------
  // _compute_fol_similarity
  // ---------------------------------------------------------------------

  /** The matrix `_compute_fol_similarity` returns. */
  function FolMatrix(analyzed: seq<Analyzed>): (m: seq<seq<real>>)
    ensures Square(m, |analyzed|)
  {
    seq(|analyzed|, i requires 0 <= i < |analyzed| =>
      seq(|analyzed|, j requires 0 <= j < |analyzed| =>
        if i == j then 1.0 else FolSimilarity(analyzed[i], analyzed[j])))
  }

  /** The FOL matrix has 1.0 on its diagonal, is symmetric, and lies in [0, 1]. */
  lemma FolMatrixShape(analyzed: seq<Analyzed>)
    ensures forall i :: 0 <= i < |analyzed| ==> FolMatrix(analyzed)[i][i] == 1.0
    ensures forall i, j :: 0 <= i < |analyzed| && 0 <= j < |analyzed| ==>
              FolMatrix(analyzed)[i][j] == FolMatrix(analyzed)[j][i]
    ensures forall i, j :: 0 <= i < |analyzed| && 0 <= j < |analyzed| ==>
              0.0 <= FolMatrix(analyzed)[i][j] <= 1.0
  {
    forall i, j | 0 <= i < |analyzed| && 0 <= j < |analyzed|
      ensures FolMatrix(analyzed)[i][j] == FolMatrix(analyzed)[j][i]
    {
      FolSimilaritySymmetric(analyzed[i], analyzed[j]);
    }
  }

  /** `_compute_fol_similarity(analyzed)`: every off-diagonal pair is
      computed in both orders and written to both cells. */
  method ComputeFolSimilarity(analyzed: seq<Analyzed>) returns (matrix: seq<seq<real>>)
    ensures matrix == FolMatrix(analyzed)
  {
    var n := |analyzed|;
    ghost var target := FolMatrix(analyzed);
    FolMatrixShape(analyzed);
    matrix := Zeros(n);
    for i := 0 to n
      invariant Square(matrix, n) && FilledAs(matrix, target, n, i, 0)
    {
      for j := 0 to n
        invariant Square(matrix, n) && FilledAs(matrix, target, n, i, j)
      {
        if i == j {
          FillDiagonal(matrix, target, n, i);
          matrix := Set2(matrix, i, j, 1.0);
        } else {
          var sim := FolSimilarity(analyzed[i], analyzed[j]);
          if i < j {
            FillCell(matrix, target, n, i, j);
          } else {
            FillMirror(matrix, target, n, i, j);
          }
          matrix := Set2(Set2(matrix, i, j, sim), j, i, sim);
        }
      }
      FillRow(matrix, target, n, i);
    }
    FillDone(matrix, target, n);
  }

  // ---------------------------------------------------------------------
  // _find_common
  // ---------------------------------------------------------------------

  /** The keys, in order, that occur at least `minCount` times in `items`. */
  function Common(keys: seq<string>, items: seq<string>, minCount: int): (r: seq<string>)
    ensures forall x :: x in r <==> x in keys && multiset(items)[x] >= minCount
  {
    if keys == [] then []
    else
      var last := keys[|keys| - 1];
      assert forall x :: x in keys <==> x in keys[..|keys| - 1] || x == last;
      Common(keys[..|keys| - 1], items, minCount) + (if multiset(items)[last] >= minCount then [last] else [])
  }

  /** `_find_common(items, min_count)`: the distinct items, in first-seen
      order, whose `Counter` count is at least `min_count`; so exactly the
      items that occur at least `min_count` times, each once, in the order
      of their first occurrence. */
  function FindCommon(items: seq<string>, minCount: int): (r: seq<string>)
    ensures forall x :: x in r <==> x in items && multiset(items)[x] >= minCount
    ensures NoDuplicates(r)
    ensures forall i, j :: 0 <= i < j < |r| ==> FirstIndex(items, r[i]) < FirstIndex(items, r[j])
  {
    var keys := Distinct(items);
    CommonDistinct(keys, items, minCount);
    forall i, j | 0 <= i < j < |keys| ensures FirstIndex(items, keys[i]) < FirstIndex(items, keys[j]) {
      DistinctOrder(items, i, j);
    }
    CommonOrder(keys, items, minCount);
    Common(keys, items, minCount)
  }

  /** The entries of `xs` occur in `items`, ordered by first occurrence there. */
  ghost predicate FirstSeenOrder(xs: seq<string>, items: seq<string>) {
    (forall x :: x in xs ==> x in items)
    && forall i, j :: 0 <= i < j < |xs| ==> FirstIndex(items, xs[i]) < FirstIndex(items, xs[j])
  }

  /** `Common` keeps the order of its keys: keys listed in first-seen order
      give common items in first-seen order. */
  lemma {:induction false} CommonOrder(keys: seq<string>, items: seq<string>, minCount: int)
    requires FirstSeenOrder(keys, items)
    ensures FirstSeenOrder(Common(keys, items, minCount), items)
  {
    if keys != [] {
      var init := keys[..|keys| - 1];
      var last := keys[|keys| - 1];
      OrderPrefix(keys, items);
      CommonOrder(init, items, minCount);
      var c := Common(init, items, minCount);
      if multiset(items)[last] >= minCount {
        OrderSnoc(init, c, last, items);
      }
    }
  }

  lemma OrderPrefix(keys: seq<string>, items: seq<string>)
    requires keys != [] && FirstSeenOrder(keys, items)
    ensures FirstSeenOrder(keys[..|keys| - 1], items)
  {
    var init := keys[..|keys| - 1];
    assert forall x :: x in init ==> x in keys;
    assert forall i :: 0 <= i < |init| ==> init[i] == keys[i];
  }

  /** Appending a key seen after every key in `init` to a sublist of `init`
      keeps first-seen order. */
  lemma OrderSnoc(init: seq<string>, c: seq<string>, last: string, items: seq<string>)
    requires FirstSeenOrder(init + [last], items) && FirstSeenOrder(c, items)
    requires forall x :: x in c ==> x in init
    ensures FirstSeenOrder(c + [last], items)
  {
    var keys := init + [last];
    var r := c + [last];
    assert last in keys;
    forall i, j | 0 <= i < j < |r| ensures FirstIndex(items, r[i]) < FirstIndex(items, r[j]) {
      if j == |c| {
        assert r[i] == c[i] && c[i] in c;
        var m :| 0 <= m < |init| && init[m] == c[i];
        assert keys[m] == c[i] && keys[|init|] == last;
      } else {
        assert r[i] == c[i] && r[j] == c[j];
      }
    }
  }

  lemma {:induction false} CommonDistinct(keys: seq<string>, items: seq<string>, minCount: int)
    requires NoDuplicates(keys)
    ensures NoDuplicates(Common(keys, items, minCount))
  {
    if keys != [] {
      var init := keys[..|keys| - 1];
      assert forall i, j :: 0 <= i < j < |init| ==> init[i] == keys[i] && init[j] == keys[j];
      CommonDistinct(init, items, minCount);
      assert keys[|keys| - 1] !in init;
    }
  }

  // ---------------------------------------------------------------------
  // _create_family and _create_single_family
  // ---------------------------------------------------------------------

  /** Positions below `n`. */
  predicate Indices(idx: seq<nat>, n: nat) {
    forall p :: 0 <= p < |idx| ==> idx[p] < n
  }

  /** The sum of `m[idx[i]][idx[q]]` over `i < q < j`. */
  function RowSum(m: seq<seq<real>>, n: nat, idx: seq<nat>, i: nat, j: nat): real
    requires Square(m, n) && Indices(idx, n) && i < |idx| && j <= |idx|
    decreases j
  {
    if j <= i + 1 then 0.0 else RowSum(m, n, idx, i, j - 1) + m[idx[i]][idx[j - 1]]
  }

  /** The sum of `m[idx[p]][idx[q]]` over the pairs `p < q` with `p < i`. */
  function PairSum(m: seq<seq<real>>, n: nat, idx: seq<nat>, i: nat): real
    requires Square(m, n) && Indices(idx, n) && i <= |idx|
  {
    if i == 0 then 0.0 else PairSum(m, n, idx, i - 1) + RowSum(m, n, idx, i - 1, |idx|)
  }

  /** The number of pairs `p < q < k` with `p < i`. */
  function PairCount(k: nat, i: nat): nat
    requires i <= k
  {
    if i == 0 then 0 else PairCount(k, i - 1) + (k - i)
  }

  /** There are `k * (k - 1) / 2` pairs in all, so some exactly when `k >= 2`. */
  lemma {:induction false} PairCountAll(k: nat, i: nat)
    requires i <= k
    ensures 2 * PairCount(k, i) == i * (2 * k - i - 1)
    ensures i == k ==> (PairCount(k, k) > 0 <==> k >= 2)
  {
    if i > 0 {
      PairCountAll(k, i - 1);
    }
    if i == k && k >= 2 {
      assert k * (2 * k - k - 1) == k * (k - 1);
      assert k * (k - 1) >= 2 * 1;
    }
  }

  /** Entries in [0, 1] give a row sum between 0 and the number of its terms. */
  lemma {:induction false} RowSumBounds(m: seq<seq<real>>, n: nat, idx: seq<nat>, i: nat, j: nat)
    requires Square(m, n) && Indices(idx, n) && i < |idx| && j <= |idx|
    requires forall p, q :: 0 <= p < n && 0 <= q < n ==> 0.0 <= m[p][q] <= 1.0
    ensures 0.0 <= RowSum(m, n, idx, i, j) <= (if j <= i + 1 then 0 else j - i - 1) as real
  {
    if j > i + 1 {
      RowSumBounds(m, n, idx, i, j - 1);
    }
  }

  /** Entries in [0, 1] give a pair sum between 0 and the number of pairs. */
  lemma {:induction false} PairSumBounds(m: seq<seq<real>>, n: nat, idx: seq<nat>, i: nat)
    requires Square(m, n) && Indices(idx, n) && i <= |idx|
    requires forall p, q :: 0 <= p < n && 0 <= q < n ==> 0.0 <= m[p][q] <= 1.0
    ensures 0.0 <= PairSum(m, n, idx, i) <= PairCount(|idx|, i) as real
  {
    if i > 0 {
      PairSumBounds(m, n, idx, i - 1);
      RowSumBounds(m, n, idx, i - 1, |idx|);
    }
  }

  /** `avg /= count` when there are pairs, else 1.0. */
  function Average(sum: real, count: nat): real {
    if count > 0 then sum / (count as real) else 1.0
  }

  lemma AverageBounds(sum: real, count: nat)
    requires 0.0 <= sum <= count as real
    ensures 0.0 <= Average(sum, count) <= 1.0
  {
    if count > 0 {
      assert sum / (count as real) <= (count as real) / (count as real);
    }
  }

  /** The assumption lists of the members, in order. */
  function AssumptionLists(members: seq<Analyzed>): (r: seq<seq<string>>)
    ensures |r| == |members|
  {
    seq(|members|, t requires 0 <= t < |members| => members[t].assumptions)
  }

  /** `[m.agent_id for m in members]` */
  function AgentIds(members: seq<Analyzed>): (r: seq<string>)
    ensures |r| == |members|
  {
    seq(|members|, t requires 0 <= t < |members| => members[t].agentId)
  }

  /** The family `_create_family` builds from the members at `idx`, with the
      fresh id `uid`. */
  function MakeFamily(analyzed: seq<Analyzed>, idx: seq<nat>, fol: seq<seq<real>>, sem: seq<seq<real>>, uid: string): ReasoningFamily
    requires Square(fol, |analyzed|) && Square(sem, |analyzed|) && idx != [] && Indices(idx, |analyzed|)
  {
    var n := |analyzed|;
    var members := Pick(analyzed, idx);
    var representative := members[0];
    var count := PairCount(|idx|, |idx|);
    var avgFol := Average(PairSum(fol, n, idx, |idx|), count);
    var avgSemantic := Average(PairSum(sem, n, idx, |idx|), count);
    ReasoningFamily(
      "family_" + uid,
      AgentIds(members),
      Take(representative.folTranslation, 200),
      representative.keyIdea,
      FindCommon(Flatten(AssumptionLists(members)), 2),
      avgFol,
      avgSemantic,
      (avgFol + avgSemantic) / 2.0,
      Take(representative.originalExplanation, 300))
  }

  /** A family lists its members' agent ids in order, is represented by its
      first member, and its similarities lie in [0, 1] when the matrices' do,
      the combined score being their mean. */
  lemma MakeFamilySpec(analyzed: seq<Analyzed>, idx: seq<nat>, fol: seq<seq<real>>, sem: seq<seq<real>>, uid: string)
    requires Square(fol, |analyzed|) && Square(sem, |analyzed|) && idx != [] && Indices(idx, |analyzed|)
    requires forall p, q :: 0 <= p < |analyzed| && 0 <= q < |analyzed| ==> 0.0 <= fol[p][q] <= 1.0 && 0.0 <= sem[p][q] <= 1.0
    ensures var f := MakeFamily(analyzed, idx, fol, sem, uid);
      |f.memberIds| == |idx| && (forall p :: 0 <= p < |idx| ==> f.memberIds[p] == analyzed[idx[p]].agentId)
      && f.sharedKeyIdea == analyzed[idx[0]].keyIdea
      && f.representativeExplanation == Take(analyzed[idx[0]].originalExplanation, 300)
      && 0.0 <= f.folSimilarity <= 1.0 && 0.0 <= f.semanticSimilarity <= 1.0
      && f.combinedScore == (f.folSimilarity + f.semanticSimilarity) / 2.0
      && 0.0 <= f.combinedScore <= 1.0
      && (|idx| == 1 ==> f.folSimilarity == 1.0 && f.semanticSimilarity == 1.0 && f.combinedScore == 1.0)
  {
    var n := |analyzed|;
    PairCountAll(|idx|, |idx|);
    PairSumBounds(fol, n, idx, |idx|);
    PairSumBounds(sem, n, idx, |idx|);
    AverageBounds(PairSum(fol, n, idx, |idx|), PairCount(|idx|, |idx|));
    AverageBounds(PairSum(sem, n, idx, |idx|), PairCount(|idx|, |idx|));
  }

  /** `_create_family(analyzed, member_indices, fol_matrix, semantic_matrix)` */
  method CreateFamily(analyzed: seq<Analyzed>, memberIndices: seq<nat>, fol: seq<seq<real>>, sem: seq<seq<real>>, uid: string)
    returns (family: ReasoningFamily)
    requires Square(fol, |analyzed|) && Square(sem, |analyzed|) && memberIndices != [] && Indices(memberIndices, |analyzed|)
    ensures family == MakeFamily(analyzed, memberIndices, fol, sem, uid)
  {
    var n := |analyzed|;
    var k := |memberIndices|;
    var members := Pick(analyzed, memberIndices);
    var memberIds := AgentIds(members);
    var allAssumptions: seq<string> := [];
    for t := 0 to |members|
      invariant allAssumptions == Flatten(AssumptionLists(members)[..t])
    {
      assert AssumptionLists(members)[..t + 1] == AssumptionLists(members)[..t] + [members[t].assumptions];
      FlattenAppend(AssumptionLists(members)[..t], members[t].assumptions);
      allAssumptions := allAssumptions + members[t].assumptions;
    }
    assert AssumptionLists(members)[..|members|] == AssumptionLists(members);
    var sharedAssumptions := FindCommon(allAssumptions, 2);
    var representative := members[0];
    var avgFol, avgSemantic, count := SumPairs(fol, sem, n, memberIndices);
    if count > 0 {
      avgFol := avgFol / (count as real);
      avgSemantic := avgSemantic / (count as real);
    } else {
      avgFol := 1.0;
      avgSemantic := 1.0;
    }
    family := ReasoningFamily(
      "family_" + uid,
      memberIds,
      Take(representative.folTranslation, 200),
      representative.keyIdea,
      sharedAssumptions,
      avgFol,
      avgSemantic,
      (avgFol + avgSemantic) / 2.0,
      Take(representative.originalExplanation, 300));
  }

  /** The pair loops of `_create_family`: both sums over the member pairs
      and their number. */
  method SumPairs(fol: seq<seq<real>>, sem: seq<seq<real>>, n: nat, idx: seq<nat>)
    returns (sumFol: real, sumSemantic: real, count: nat)
    requires Square(fol, n) && Square(sem, n) && Indices(idx, n)
    ensures sumFol == PairSum(fol, n, idx, |idx|) && sumSemantic == PairSum(sem, n, idx, |idx|)
    ensures count == PairCount(|idx|, |idx|)
  {
    sumFol, sumSemantic, count := 0.0, 0.0, 0;
    for i := 0 to |idx|
      invariant sumFol == PairSum(fol, n, idx, i) && sumSemantic == PairSum(sem, n, idx, i)
      invariant count == PairCount(|idx|, i)
    {
      for j := i + 1 to |idx|
        invariant sumFol == PairSum(fol, n, idx, i) + RowSum(fol, n, idx, i, j)
        invariant sumSemantic == PairSum(sem, n, idx, i) + RowSum(sem, n, idx, i, j)
        invariant count == PairCount(|idx|, i) + (j - i - 1)
      {
        sumFol := sumFol + fol[idx[i]][idx[j]];
        sumSemantic := sumSemantic + sem[idx[i]][idx[j]];
        count := count + 1;
      }
    }
  }

  /** `_create_single_family(analyzed)`: the item alone, all its
      assumptions shared, every similarity 1.0. */
  function SingleFamily(a: Analyzed, uid: string): (r: ReasoningFamily)
    ensures r.memberIds == [a.agentId] && r.sharedAssumptions == a.assumptions && r.sharedKeyIdea == a.keyIdea
    ensures r.folSimilarity == 1.0 && r.semanticSimilarity == 1.0 && r.combinedScore == 1.0
    ensures r.sharedFolPattern <= a.folTranslation && |r.sharedFolPattern| == (if |a.folTranslation| < 200 then |a.folTranslation| else 200)
    ensures r.representativeExplanation <= a.originalExplanation
            && |r.representativeExplanation| == (if |a.originalExplanation| < 300 then |a.originalExplanation| else 300)
  {
    ReasoningFamily(
      "family_" + uid,
      [a.agentId],
      Take(a.folTranslation, 200),
      a.keyIdea,
      a.assumptions,
      1.0,
      1.0,
      1.0,
      Take(a.originalExplanation, 300))
  }

  /** A lone item gets the family `_create_family` would give a one-member
      group, except that it shares all its assumptions rather than only the
      repeated ones. */
  lemma SingleFamilyAgrees(a: Analyzed, fol: seq<seq<real>>, sem: seq<seq<real>>, uid: string)
    requires Square(fol, 1) && Square(sem, 1)
    ensures MakeFamily([a], [0], fol, sem, uid)
         == SingleFamily(a, uid).(sharedAssumptions := FindCommon(a.assumptions, 2))
  {
    assert Pick([a], [0]) == [a];
    assert AssumptionLists([a]) == [a.assumptions];
    assert Flatten([a.assumptions]) == a.assumptions by {
      assert [a.assumptions][..0] == [];
    }
    assert PairCount(1, 1) == 0;
  }

  // ---------------------------------------------------------------------
  // _cluster_dual_layer
  // ---------------------------------------------------------------------

  /** Position `j` may join seed `i` when both similarities reach their thresholds. */
  function DualLinks(fol: seq<seq<real>>, sem: seq<seq<real>>, n: nat, folThreshold: real, semanticThreshold: real)
    : (link: seq<seq<bool>>)
    requires Square(fol, n) && Square(sem, n)
    ensures Square(link, n)
    ensures forall i, j :: 0 <= i < n && 0 <= j < n ==>
              link[i][j] == (fol[i][j] >= folThreshold && sem[i][j] >= semanticThreshold)
  {
    seq(n, i requires 0 <= i < n =>
      seq(n, j requires 0 <= j < n => fol[i][j] >= folThreshold && sem[i][j] >= semanticThreshold))
  }

  /** The families built from the groups, the `k`-th with the `k`-th fresh id. */
  function FamiliesOf(analyzed: seq<Analyzed>, groups: seq<seq<nat>>, fol: seq<seq<real>>, sem: seq<seq<real>>,
                      uid: nat -> string): (r: seq<ReasoningFamily>)
    requires Square(fol, |analyzed|) && Square(sem, |analyzed|)
    requires forall k :: 0 <= k < |groups| ==> groups[k] != [] && Indices(groups[k], |analyzed|)
    ensures |r| == |groups|
  {
    seq(|groups|, k requires 0 <= k < |groups| => MakeFamily(analyzed, groups[k], fol, sem, uid(k)))
  }

  lemma FamiliesSnoc(analyzed: seq<Analyzed>, groups: seq<seq<nat>>, fol: seq<seq<real>>, sem: seq<seq<real>>,
                     uid: nat -> string, cur: seq<nat>)
    requires Square(fol, |analyzed|) && Square(sem, |analyzed|)
    requires forall k :: 0 <= k < |groups| ==> groups[k] != [] && Indices(groups[k], |analyzed|)
    requires cur != [] && Indices(cur, |analyzed|)
    ensures FamiliesOf(analyzed, groups + [cur], fol, sem, uid)
         == FamiliesOf(analyzed, groups, fol, sem, uid) + [MakeFamily(analyzed, cur, fol, sem, uid(|groups|))]
  {
    var gs := groups + [cur];
    var lhs := FamiliesOf(analyzed, gs, fol, sem, uid);
    var rhs := FamiliesOf(analyzed, groups, fol, sem, uid) + [MakeFamily(analyzed, cur, fol, sem, uid(|groups|))];
    forall k | 0 <= k < |gs| ensures lhs[k] == rhs[k] {
      FamilySnocAt(analyzed, groups, fol, sem, uid, cur, k);
    }
  }

  lemma FamilySnocAt(analyzed: seq<Analyzed>, groups: seq<seq<nat>>, fol: seq<seq<real>>, sem: seq<seq<real>>,
                     uid: nat -> string, cur: seq<nat>, k: nat)
    requires Square(fol, |analyzed|) && Square(sem, |analyzed|)
    requires forall k :: 0 <= k < |groups| ==> groups[k] != [] && Indices(groups[k], |analyzed|)
    requires cur != [] && Indices(cur, |analyzed|)
    requires k <= |groups|
    ensures FamiliesOf(analyzed, groups + [cur], fol, sem, uid)[k]
         == (FamiliesOf(analyzed, groups, fol, sem, uid) + [MakeFamily(analyzed, cur, fol, sem, uid(|groups|))])[k]
  {
    var gs := groups + [cur];
    FamilyAt(analyzed, gs, fol, sem, uid, k);
    if k < |groups| {
      FamilyAt(analyzed, groups, fol, sem, uid, k);
      assert gs[k] == groups[k];
    }
  }

  lemma FamilyAt(analyzed: seq<Analyzed>, groups: seq<seq<nat>>, fol: seq<seq<real>>, sem: seq<seq<real>>,
                 uid: nat -> string, k: nat)
    requires Square(fol, |analyzed|) && Square(sem, |analyzed|)
    requires forall k :: 0 <= k < |groups| ==> groups[k] != [] && Indices(groups[k], |analyzed|)
    requires k < |groups|
    ensures FamiliesOf(analyzed, groups, fol, sem, uid)[k] == MakeFamily(analyzed, groups[k], fol, sem, uid(k))
  {
  }

  /** `isAssigned[x]` holds exactly for the positions grouped so far and those of `cur`. */
  ghost predicate FlagsOf(isAssigned: seq<bool>, groups: seq<seq<nat>>, cur: seq<nat>) {
    forall x :: 0 <= x < |isAssigned| ==> (isAssigned[x] <==> InGroupBefore(groups, |groups|, x) || x in cur)
  }

  lemma FlagsAdd(isAssigned: seq<bool>, groups: seq<seq<nat>>, cur: seq<nat>, j: nat)
    requires j < |isAssigned| && FlagsOf(isAssigned, groups, cur)
    ensures FlagsOf(isAssigned[j := true], groups, cur + [j])
  {
  }

  lemma FlagsClose(isAssigned: seq<bool>, groups: seq<seq<nat>>, cur: seq<nat>)
    requires FlagsOf(isAssigned, groups, cur)
    ensures FlagsOf(isAssigned, groups + [cur], [])
  {
    forall x | 0 <= x < |isAssigned|
      ensures InGroupBefore(groups + [cur], |groups| + 1, x) == (InGroupBefore(groups, |groups|, x) || x in cur)
    {
      InGroupBeforeSnoc(groups, cur, |groups|, x);
    }
  }

  /** Past the seed, the row holds only positions below `j`. */
  lemma RowBeyond(link: seq<seq<bool>>, n: nat, groups: seq<seq<nat>>, i: nat, cur: seq<nat>, j: nat)
    requires Square(link, n) && SeedRow(link, n, groups, i, cur, j) && i < j
    ensures j !in cur
  {
  }

  /** `_cluster_dual_layer(analyzed, fol_matrix, semantic_matrix)`: every
      unassigned position seeds a family, which takes every later
      unassigned position whose FOL and semantic similarity to the seed both
      reach their thresholds. */
  method ClusterDualLayer(analyzed: seq<Analyzed>, fol: seq<seq<real>>, sem: seq<seq<real>>,
                          folThreshold: real, semanticThreshold: real, uid: nat -> string)
    returns (families: seq<ReasoningFamily>, ghost groups: seq<seq<nat>>)
    requires Square(fol, |analyzed|) && Square(sem, |analyzed|)
    ensures SeedGrouping(DualLinks(fol, sem, |analyzed|, folThreshold, semanticThreshold), |analyzed|, groups)
    ensures families == FamiliesOf(analyzed, groups, fol, sem, uid)
  {
    var n := |analyzed|;
    ghost var link := DualLinks(fol, sem, n, folThreshold, semanticThreshold);
    var isAssigned := seq(n, _ => false);
    families := [];
    groups := [];
    SeedEmpty(link, n);
    for i := 0 to n
      invariant |isAssigned| == n && SeedPrefix(link, n, groups, i) && FlagsOf(isAssigned, groups, [])
      invariant families == FamiliesOf(analyzed, groups, fol, sem, uid)
    {
      if isAssigned[i] {
        SeedPass(link, n, groups, i);
      } else {
        var familyMembers: seq<nat> := [i];
        FlagsAdd(isAssigned, groups, [], i);
        isAssigned := isAssigned[i := true];
        SeedStart(link, n, groups, i, i + 1);
        for j := i + 1 to n
          invariant |isAssigned| == n && SeedRow(link, n, groups, i, familyMembers, j)
          invariant FlagsOf(isAssigned, groups, familyMembers)
        {
          RowBeyond(link, n, groups, i, familyMembers, j);
          if isAssigned[j] {
            SeedSkip(link, n, groups, i, familyMembers, j);
          } else {
            var folSim := fol[i][j];
            var semanticSim := sem[i][j];
            if folSim >= folThreshold && semanticSim >= semanticThreshold {
              SeedTake(link, n, groups, i, familyMembers, j);
              FlagsAdd(isAssigned, groups, familyMembers, j);
              familyMembers := familyMembers + [j];
              isAssigned := isAssigned[j := true];
            } else {
              SeedSkip(link, n, groups, i, familyMembers, j);
            }
          }
        }
        SeedClose(link, n, groups, i, familyMembers);
        FlagsClose(isAssigned, groups, familyMembers);
        var family := CreateFamily(analyzed, familyMembers, fol, sem, uid(|families|));
        FamiliesSnoc(analyzed, groups, fol, sem, uid, familyMembers);
        families := families + [family];
        groups := groups + [familyMembers];
      }
    }
    SeedFinish(link, n, groups);
  }

  // ---------------------------------------------------------------------
  // group
  // ---------------------------------------------------------------------

  /** The explanations `_compute_semantic_similarity` compares. */
  function Explanations(analyzed: seq<Analyzed>): (r: seq<string>)
    ensures |r| == |analyzed|
  {
    seq(|analyzed|, t requires 0 <= t < |analyzed| => analyzed[t].originalExplanation)
  }

  /** The matrix `_compute_semantic_similarity` returns. */
  function SemanticMatrix(analyzed: seq<Analyzed>, ops: Vectors.FloatOps): (m: seq<seq<real>>)
    ensures Square(m, |analyzed|)
  {
    Vectors.SimilarityOf(Vectors.BatchTfidf(Explanations(analyzed), ops), ops)
  }

  /** `FamilyGrouper.group(analyzed, task_id)` with the grouper's two
      thresholds; `uid(k)` stands for the hex of the `k`-th fresh uuid. */
  method Group(analyzed: seq<Analyzed>, taskId: string, folThreshold: real, semanticThreshold: real,
               ops: Vectors.FloatOps, uid: nat -> string)
    returns (families: seq<ReasoningFamily>, ghost groups: seq<seq<nat>>)
    ensures |analyzed| == 0 ==> families == []
    ensures |analyzed| == 1 ==> families == [SingleFamily(analyzed[0], uid(0))]
    ensures |analyzed| >= 2 ==>
      var fol := FolMatrix(analyzed);
      var sem := SemanticMatrix(analyzed, ops);
      SeedGrouping(DualLinks(fol, sem, |analyzed|, folThreshold, semanticThreshold), |analyzed|, groups)
      && families == FamiliesOf(analyzed, groups, fol, sem, uid)
  {
    if |analyzed| == 0 {
      return [], [];
    }
    if |analyzed| == 1 {
      return [SingleFamily(analyzed[0], uid(0))], [[0]];
    }
    var folMatrix := ComputeFolSimilarity(analyzed);
    var semanticMatrix := Vectors.ComputeSimilarityMatrix(Explanations(analyzed), ops);
    families, groups := ClusterDualLayer(analyzed, folMatrix, semanticMatrix, folThreshold, semanticThreshold, uid);
  }

  /** Every item is a member of exactly one family: the family of its group,
      at the position it has there. */
  lemma GroupMembership(analyzed: seq<Analyzed>, groups: seq<seq<nat>>, fol: seq<seq<real>>, sem: seq<seq<real>>,
                        uid: nat -> string, x: nat)
    requires Square(fol, |analyzed|) && Square(sem, |analyzed|)
    requires IsPartition(groups, |analyzed|) && x < |analyzed|
    ensures forall k :: 0 <= k < |groups| ==> groups[k] != [] && Indices(groups[k], |analyzed|)
    ensures exists k, p :: 0 <= k < |groups| && 0 <= p < |groups[k]| && groups[k][p] == x
              && p < |FamiliesOf(analyzed, groups, fol, sem, uid)[k].memberIds|
              && FamiliesOf(analyzed, groups, fol, sem, uid)[k].memberIds[p] == analyzed[x].agentId
    ensures forall k1, k2, p1, p2 :: 0 <= k1 < |groups| && 0 <= k2 < |groups|
              && 0 <= p1 < |groups[k1]| && 0 <= p2 < |groups[k2]| && groups[k1][p1] == x && groups[k2][p2] == x
              ==> k1 == k2
  {
    assert InGroupBefore(groups, |groups|, x);
    var k :| 0 <= k < |groups| && x in groups[k];
    var p :| 0 <= p < |groups[k]| && groups[k][p] == x;
    assert FamiliesOf(analyzed, groups, fol, sem, uid)[k] == MakeFamily(analyzed, groups[k], fol, sem, uid(k));
    assert Pick(analyzed, groups[k])[p] == analyzed[x];
    assert FamiliesOf(analyzed, groups, fol, sem, uid)[k].memberIds[p] == analyzed[x].agentId;
    forall k1, k2, p1, p2 | 0 <= k1 < |groups| && 0 <= k2 < |groups|
        && 0 <= p1 < |groups[k1]| && 0 <= p2 < |groups[k2]| && groups[k1][p1] == x && groups[k2][p2] == x
      ensures k1 == k2
    {
      assert x in groups[k1] && x in groups[k2];
    }
  }
}
