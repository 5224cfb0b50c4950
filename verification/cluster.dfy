/** Union-find clustering of agent runs into reasoning families
    (`mprg/cluster.py`): assumption normalisation, Jaccard similarity, the
    union-find structure, `cluster_runs` and the family signature. */
module Cluster {
  import opened Text
  import opened Collections
  import Sorting
  import opened Groups

  // ---------------------------------------------------------------------
  // normalize_assumption
  // ---------------------------------------------------------------------

  /** Alphanumerics and whitespace are lowered, every other character becomes a space. */
  function CleanChar(c: char): (r: char)
    ensures IsSpace(r) || (IsAlnum(r) && !IsUpper(r))
  {
    if IsAlnum(c) || IsSpace(c) then LowerChar(c) else ' '
  }

  /** Lower-case letters, digits and single inner spaces only. */
  predicate Canonical(s: string) {
    (forall i :: 0 <= i < |s| ==> s[i] == ' ' || (IsAlnum(s[i]) && !IsUpper(s[i])))
    && (s == [] || (s[0] != ' ' && s[|s| - 1] != ' '))
    && (forall i :: 0 <= i < |s| - 1 ==> !DoubleSpaceAt(s, i))
  }

  predicate DoubleSpaceAt(s: string, i: nat)
    requires i + 1 < |s|
  {
    s[i] == ' ' && s[i + 1] == ' '
  }

  predicate IsWord(w: string) {
    w != [] && forall i :: 0 <= i < |w| ==> IsAlnum(w[i]) && !IsUpper(w[i])
  }

  /** The text with every character cleaned. */
  function Cleaned(text: string): string {
    seq(|text|, i requires 0 <= i < |text| => CleanChar(text[i]))
  }

  /** `normalize_assumption(text)`: punctuation to spaces, lower case,
      whitespace collapsed; the result holds exactly the words of the
      cleaned text, in order. */
  function NormalizeAssumption(text: string): (r: string)
    ensures Canonical(r)
    ensures Words(r) == Words(Cleaned(text))
  {
    var cleaned := Cleaned(text);
    var words := Words(cleaned);
    WordsOfCleaned(cleaned);
    JoinWordsCanonical(words);
    WordsJoin(words);
    Join(" ", words)
  }

  /** A word ends where the text after it starts with whitespace. */
  lemma {:induction false} WordLenOfWord(w: string, t: string)
    requires IsWord(w) && (t == [] || IsSpace(t[0]))
    ensures WordLen(w + t) == |w|
    decreases |w|
  {
    assert (w + t)[0] == w[0];
    if |w| > 1 {
      assert (w + t)[1..] == w[1..] + t;
      WordLenOfWord(w[1..], t);
    } else {
      assert (w + t)[1..] == t;
    }
  }

  /** Words joined with single spaces split back into the same words. */
  lemma {:induction false} WordsJoin(ws: seq<string>)
    requires forall k :: 0 <= k < |ws| ==> IsWord(ws[k])
    ensures Words(Join(" ", ws)) == ws
  {
    if |ws| == 1 {
      WordLenOfWord(ws[0], []);
      assert ws[0] + [] == ws[0];
      assert ws[0][..|ws[0]|] == ws[0];
    } else if |ws| > 1 {
      var w, rest := ws[0], Join(" ", ws[1..]);
      WordsJoin(ws[1..]);
      var s := w + (" " + rest);
      assert s == Join(" ", ws);
      WordLenOfWord(w, " " + rest);
      assert s[..|w|] == w && s[|w|..] == " " + rest;
      assert (" " + rest)[1..] == rest;
    }
  }

  lemma {:induction false} WordsOfCleaned(s: string)
    requires forall i :: 0 <= i < |s| ==> IsSpace(s[i]) || (IsAlnum(s[i]) && !IsUpper(s[i]))
    ensures forall k :: 0 <= k < |Words(s)| ==> IsWord(Words(s)[k])
    decreases |s|
  {
    if s != [] {
      if IsSpace(s[0]) {
        WordsOfCleaned(s[1..]);
      } else {
        var n := WordLen(s);
        WordsOfCleaned(s[n..]);
        assert forall i :: 0 <= i < n ==> s[..n][i] == s[i] && !IsSpace(s[i]);
      }
    }
  }

  lemma {:induction false} JoinWordsCanonical(ws: seq<string>)
    requires forall k :: 0 <= k < |ws| ==> IsWord(ws[k])
    ensures Canonical(Join(" ", ws))
  {
    if |ws| > 1 {
      JoinWordsCanonical(ws[1..]);
      var rest := Join(" ", ws[1..]);
      var s := ws[0] + " " + rest;
      assert s == Join(" ", ws);
      forall i | 0 <= i < |s| - 1 ensures !DoubleSpaceAt(s, i) {
        if i < |ws[0]| - 1 {
          assert s[i] == ws[0][i];
        } else if i == |ws[0]| - 1 {
          assert s[i] == ws[0][i];
        } else if i == |ws[0]| {
          assert ws[1..][0] == ws[1];
          assert s[i + 1] == rest[0] == ws[1][0];
        } else {
          assert s[i] == rest[i - |ws[0]| - 1] && s[i + 1] == rest[i - |ws[0]|];
          assert !DoubleSpaceAt(rest, i - |ws[0]| - 1);
        }
      }
      forall i | 0 <= i < |s| ensures s[i] == ' ' || (IsAlnum(s[i]) && !IsUpper(s[i])) {
        if i < |ws[0]| { assert s[i] == ws[0][i]; }
        else if i > |ws[0]| { assert s[i] == rest[i - |ws[0]| - 1]; }
      }
    }
  }

  /** After a space, a canonical string goes on with a canonical string
      that starts with a word. */
  lemma CanonicalAfterSpace(s: string, n: nat)
    requires Canonical(s) && n < |s| && s[n] == ' '
    ensures n + 1 < |s| && s[n + 1] != ' ' && Canonical(s[n + 1..])
  {
    assert s[|s| - 1] != ' ';
    assert !DoubleSpaceAt(s, n);
    var rest := s[n + 1..];
    forall i | 0 <= i < |rest| - 1 ensures !DoubleSpaceAt(rest, i) {
      assert rest[i] == s[n + 1 + i] && rest[i + 1] == s[n + 2 + i];
      assert !DoubleSpaceAt(s, n + 1 + i);
    }
    forall i | 0 <= i < |rest| ensures rest[i] == ' ' || (IsAlnum(rest[i]) && !IsUpper(rest[i])) {
      assert rest[i] == s[n + 1 + i];
    }
  }

  lemma WordsAtWord(s: string)
    requires s != [] && !IsSpace(s[0])
    ensures Words(s) == [s[..WordLen(s)]] + Words(s[WordLen(s)..])
  {
  }

  lemma WordsAtSpace(s: string)
    requires s != [] && IsSpace(s[0])
    ensures Words(s) == Words(s[1..])
  {
  }

  lemma AroundIndex<T>(s: seq<T>, n: nat)
    requires n < |s|
    ensures s == s[..n] + [s[n]] + s[n + 1..]
  {
  }

  lemma JoinCons(sep: string, w: string, ws: seq<string>)
    requires ws != []
    ensures Join(sep, [w] + ws) == w + sep + Join(sep, ws)
  {
    assert ([w] + ws)[1..] == ws;
  }

  /** A canonical string is split at its single spaces and joined back unchanged. */
  lemma {:induction false} CanonicalWordsJoin(s: string)
    requires Canonical(s)
    ensures Join(" ", Words(s)) == s
    decreases |s|
  {
    if s != [] {
      var n := WordLen(s);
      var w := s[..n];
      WordsAtWord(s);
      if n < |s| {
        var rest := s[n + 1..];
        CanonicalAfterSpace(s, n);
        WordsAtSpace(s[n..]);
        assert s[n..][1..] == rest;
        CanonicalWordsJoin(rest);
        WordsAtWord(rest);
        JoinCons(" ", w, Words(rest));
        AroundIndex(s, n);
      } else {
        assert w == s;
      }
    }
  }

  /** Characters that are already lower-case alphanumerics or spaces are kept. */
  lemma CleanCanonical(s: string)
    requires Canonical(s)
    ensures Cleaned(s) == s
  {
  }

  /** Normalising twice gives the same result as normalising once. */
  lemma NormalizeIdempotent(text: string)
    ensures NormalizeAssumption(NormalizeAssumption(text)) == NormalizeAssumption(text)
  {
    var once := NormalizeAssumption(text);
    CleanCanonical(once);
    CanonicalWordsJoin(once);
  }

  // ---------------------------------------------------------------------
  // jaccard_similarity
  // ---------------------------------------------------------------------

  /** `jaccard_similarity(a, b)`: 1.0 for two empty sets, else |a & b| / |a | b|. */
  function Jaccard(a: set<string>, b: set<string>): (r: real)
    ensures 0.0 <= r <= 1.0
    ensures a == {} && b == {} ==> r == 1.0
    ensures r == 1.0 <==> a == b
  {
    if a == {} && b == {} then 1.0
    else
      var union := a + b;
      if union == {} then 0.0
      else
        SubsetCardinality(a * b, union);
        var r := (|a * b| as real) / (|union| as real);
        assert r == 1.0 <==> |a * b| == |union|;
        assert a * b == union <==> a == b;
        r
  }

  lemma SubsetCardinality(x: set<string>, y: set<string>)
    requires x <= y
    ensures |x| <= |y|
    ensures |x| == |y| ==> x == y
  {
    assert y == x + (y - x);
    assert |y| == |x| + |y - x|;
    if |x| == |y| {
      assert |y - x| == 0;
      assert y - x == {};
    }
  }

  lemma JaccardSymmetric(a: set<string>, b: set<string>)
    ensures Jaccard(a, b) == Jaccard(b, a)
  {
    assert a * b == b * a && a + b == b + a;
  }

  // ---------------------------------------------------------------------
  // UnionFind
  // ---------------------------------------------------------------------

  /** A parent list is a forest when every entry is in range and every
      non-root points to a node of strictly higher (ghost) level, bounded by `top`. */
  ghost predicate Forest(p: seq<nat>, lv: seq<nat>, top: nat) {
    |lv| == |p|
    && (forall i :: 0 <= i < |p| ==> p[i] < |p| && lv[i] <= top)
    && (forall i {:trigger p[i], lv[i]} :: 0 <= i < |p| && p[i] != i ==> lv[i] < lv[p[i]])
  }

  /** The root reached from `i` by following parents. */
  ghost function RootOf(p: seq<nat>, lv: seq<nat>, top: nat, i: nat): (r: nat)
    requires Forest(p, lv, top) && i < |p|
    ensures r < |p| && p[r] == r
    decreases top - lv[i]
  {
    if p[i] == i then i else RootOf(p, lv, top, p[i])
  }

  /** The levels only witness termination: any two of them give the same roots. */
  lemma {:induction false} RootOfLevels(p: seq<nat>, lv: seq<nat>, top: nat, lv2: seq<nat>, top2: nat, i: nat)
    requires Forest(p, lv, top) && Forest(p, lv2, top2) && i < |p|
    ensures RootOf(p, lv, top, i) == RootOf(p, lv2, top2, i)
    decreases top - lv[i]
  {
    if p[i] != i {
      RootOfLevels(p, lv, top, lv2, top2, p[i]);
    }
  }

  /** Path halving (`parent[i] = parent[parent[i]]`) changes no root. */
  lemma {:induction false} HalvingKeepsRoots(p: seq<nat>, lv: seq<nat>, top: nat, i: nat, j: nat)
    requires Forest(p, lv, top) && i < |p| && j < |p|
    ensures Forest(p[i := p[p[i]]], lv, top)
    ensures RootOf(p[i := p[p[i]]], lv, top, j) == RootOf(p, lv, top, j)
    decreases top - lv[j]
  {
    var q := p[i := p[p[i]]];
    if p[j] != j {
      HalvingKeepsRoots(p, lv, top, i, p[j]);
      if j == i && p[p[i]] != p[i] {
        HalvingKeepsRoots(p, lv, top, i, p[p[i]]);
      }
    }
  }

  /** Linking root `rb` under root `ra` moves exactly the members of `rb`'s tree to `ra`. */
  lemma {:induction false} LinkRoots(p: seq<nat>, lv: seq<nat>, top: nat, ra: nat, rb: nat, j: nat)
    requires Forest(p, lv, top) && ra < |p| && rb < |p| && j < |p|
    requires p[ra] == ra && p[rb] == rb && ra != rb
    ensures var lv2 := lv[ra := if lv[ra] > lv[rb] then lv[ra] else lv[rb] + 1];
            var top2 := if top > lv2[ra] then top else lv2[ra];
            Forest(p[rb := ra], lv2, top2)
            && RootOf(p[rb := ra], lv2, top2, j)
               == if RootOf(p, lv, top, j) == rb then ra else RootOf(p, lv, top, j)
    decreases top - lv[j]
  {
    var lv2 := lv[ra := if lv[ra] > lv[rb] then lv[ra] else lv[rb] + 1];
    var top2 := if top > lv2[ra] then top else lv2[ra];
    var q := p[rb := ra];
    assert Forest(q, lv2, top2);
    if p[j] != j {
      LinkRoots(p, lv, top, ra, rb, p[j]);
    }
  }

  /** The roots after the tree rooted at `from` is hung under `to`. */
  function Relabel(roots: seq<nat>, from: nat, to: nat): (r: seq<nat>)
    ensures |r| == |roots|
    ensures forall x :: 0 <= x < |roots| ==> r[x] == if roots[x] == from then to else roots[x]
  {
    seq(|roots|, x requires 0 <= x < |roots| => if roots[x] == from then to else roots[x])
  }

  /** Hanging a tree under itself changes nothing. */
  lemma RelabelSame(roots: seq<nat>, r: nat)
    ensures Relabel(roots, r, r) == roots
  {
  }

  /** `UnionFind`: `parent` starts as `list(range(size))`; `find` halves paths. */
  class UnionFind {
    var parent: array<nat>
    ghost var level: seq<nat>
    ghost var top: nat

    ghost predicate Valid()
      reads this, parent
    {
      Forest(parent[..], level, top)
    }

    /** The root that `find(i)` reports. */
    ghost function Root(i: nat): (r: nat)
      reads this, parent
      requires Valid() && i < parent.Length
      ensures r < parent.Length && parent[r] == r
    {
      RootOf(parent[..], level, top, i)
    }

    /** The root of every element, in element order. */
    ghost function Roots(): (r: seq<nat>)
      reads this, parent
      requires Valid()
      ensures |r| == parent.Length
      ensures forall i :: 0 <= i < |r| ==> r[i] == Root(i)
    {
      seq(parent.Length, i requires 0 <= i < parent.Length && Valid() reads this, parent => Root(i))
    }

    constructor (size: nat)
      ensures Valid() && fresh(parent) && parent.Length == size
      ensures forall i :: 0 <= i < size ==> parent[i] == i && Root(i) == i
    {
      parent := new nat[size](i => i);
      level := seq(size, i => 0);
      top := 0;
    }

    /** `find(idx)`: the root of `idx`; path halving leaves every root unchanged. */
    method Find(idx: nat) returns (root: nat)
      requires Valid() && idx < parent.Length
      modifies parent
      ensures Valid() && root < parent.Length && parent[root] == root
      ensures root == old(Root(idx))
      ensures forall j :: 0 <= j < parent.Length ==> Root(j) == old(Root(j))
      ensures Roots() == old(Roots())
    {
      root := idx;
      while parent[root] != root
        invariant Valid() && root < parent.Length
        invariant Root(root) == old(Root(idx))
        invariant forall j :: 0 <= j < parent.Length ==> Root(j) == old(Root(j))
        decreases top - level[root]
      {
        ghost var before := parent[..];
        forall j | 0 <= j < parent.Length {
          HalvingKeepsRoots(before, level, top, root, j);
        }
        parent[root] := parent[parent[root]];
        assert parent[..] == before[root := before[before[root]]];
        root := parent[root];
      }
      assert Roots() == old(Roots());
    }

    /** `union(a, b)`: afterwards `a` and `b` share a root; the trees of `b`'s
        old root join `a`'s and no other element changes root. */
    method Union(a: nat, b: nat)
      requires Valid() && a < parent.Length && b < parent.Length
      modifies this, parent
      ensures Valid() && parent == old(parent)
      ensures Roots() == Relabel(old(Roots()), old(Roots())[b], old(Roots())[a])
    {
      ghost var before := Roots();
      var rootA := Find(a);
      var rootB := Find(b);
      if rootA != rootB {
        Link(rootA, rootB);
      } else {
        RelabelSame(before, rootB);
      }
    }

    /** `parent[root_b] = root_a` for two distinct roots. */
    method Link(rootA: nat, rootB: nat)
      requires Valid() && rootA < parent.Length && rootB < parent.Length
      requires parent[rootA] == rootA && parent[rootB] == rootB && rootA != rootB
      modifies this, parent
      ensures Valid() && parent == old(parent)
      ensures Roots() == Relabel(old(Roots()), rootB, rootA)
    {
      ghost var before, lv, t := parent[..], level, top;
      ghost var lv2 := lv[rootA := if lv[rootA] > lv[rootB] then lv[rootA] else lv[rootB] + 1];
      ghost var top2 := if t > lv2[rootA] then t else lv2[rootA];
      LinkRoots(before, lv, t, rootA, rootB, rootA);
      parent[rootB] := rootA;
      level, top := lv2, top2;
      assert parent[..] == before[rootB := rootA];
      forall j | 0 <= j < parent.Length
        ensures Root(j) == if RootOf(before, lv, t, j) == rootB then rootA else RootOf(before, lv, t, j)
      {
        LinkRoots(before, lv, t, rootA, rootB, j);
      }
      assert Roots() == Relabel(old(Roots()), rootB, rootA);
    }
  }

  // ---------------------------------------------------------------------
  // build_family_signature
  // ---------------------------------------------------------------------

  /** A run record as `cluster_runs` reads it. */
  datatype RunRecord = RunRecord(
    runId: string,
    planEmbedding: seq<real>,
    assumptionSet: set<string>,
    assumptionsRaw: seq<string>,
    planSteps: seq<string>)

  datatype FamilyResult = FamilyResult(
    familyId: string,
    runIds: seq<string>,
    representativeRunId: string,
    familySignature: string)

  /** Some entry of `raws` normalizes to `key`. */
  ghost predicate NormalizesTo(raws: seq<string>, key: string) {
    exists i :: 0 <= i < |raws| && NormalizeAssumption(raws[i]) == key
  }

  /** The non-empty normalized forms of `raws`, in order: the keys that
      `build_family_signature` counts. */
  function Normalized(raws: seq<string>): (r: seq<string>)
    ensures |r| <= |raws|
    ensures forall t :: 0 <= t < |r| ==> r[t] != ""
  {
    if raws == [] then []
    else
      var n := NormalizeAssumption(raws[|raws| - 1]);
      Normalized(raws[..|raws| - 1]) + (if n == "" then [] else [n])
  }

  /** The counted keys are exactly the non-empty normalized forms. */
  lemma {:induction false} NormalizedMembership(raws: seq<string>, key: string)
    ensures key in Normalized(raws) <==> key != "" && NormalizesTo(raws, key)
  {
    if raws != [] {
      var init := raws[..|raws| - 1];
      var n := NormalizeAssumption(raws[|raws| - 1]);
      NormalizedMembership(init, key);
      NormalizesToSnoc(raws, key);
      assert Normalized(raws) == Normalized(init) + (if n == "" then [] else [n]);
    }
  }

  lemma NormalizesToSnoc(raws: seq<string>, key: string)
    requires raws != []
    ensures NormalizesTo(raws, key) <==>
              NormalizesTo(raws[..|raws| - 1], key) || NormalizeAssumption(raws[|raws| - 1]) == key
  {
    var init := raws[..|raws| - 1];
    if NormalizesTo(raws, key) {
      var i :| 0 <= i < |raws| && NormalizeAssumption(raws[i]) == key;
      if i < |init| { assert init[i] == raws[i]; }
    }
    if NormalizesTo(init, key) {
      var i :| 0 <= i < |init| && NormalizeAssumption(init[i]) == key;
      assert raws[i] == init[i];
    }
  }

  /** The label `assumption_labels.setdefault(key, raw)` keeps. */
  function FirstLabel(raws: seq<string>, key: string): (r: string)
    requires key in Normalized(raws)
    ensures NormalizeAssumption(r) == key
  {
    var init := raws[..|raws| - 1];
    if key in Normalized(init) then FirstLabel(init, key) else raws[|raws| - 1]
  }

  /** The label is the first raw assumption whose normalized form is `key`. */
  lemma {:induction false} FirstLabelIsFirst(raws: seq<string>, key: string)
    requires key in Normalized(raws)
    ensures exists i :: 0 <= i < |raws| && raws[i] == FirstLabel(raws, key)
              && forall i' :: 0 <= i' < i ==> NormalizeAssumption(raws[i']) != key
  {
    var init := raws[..|raws| - 1];
    if key in Normalized(init) {
      FirstLabelIsFirst(init, key);
      var i :| 0 <= i < |init| && init[i] == FirstLabel(init, key)
               && forall i' :: 0 <= i' < i ==> NormalizeAssumption(init[i']) != key;
      assert raws[i] == FirstLabel(raws, key) && forall i' :: 0 <= i' < i ==> raws[i'] == init[i'];
    } else {
      NormalizedMembership(init, key);
      assert forall i' :: 0 <= i' < |init| ==> NormalizeAssumption(init[i']) != key;
      assert forall i' :: 0 <= i' < |init| ==> raws[i'] == init[i'];
    }
  }

  /** Every raw assumption of the members, member by member. */
  function AllRaws(members: seq<RunRecord>): (r: seq<string>)
  {
    if members == [] then [] else AllRaws(members[..|members| - 1]) + members[|members| - 1].assumptionsRaw
  }

  lemma AllRawsStep(members: seq<RunRecord>, m: nat)
    requires m < |members|
    ensures AllRaws(members[..m + 1]) == AllRaws(members[..m]) + members[m].assumptionsRaw[..|members[m].assumptionsRaw|]
  {
    assert members[..m + 1][..m] == members[..m];
  }

  lemma PrefixStep(done: seq<string>, raws: seq<string>, r: nat)
    requires r < |raws|
    ensures done + raws[..r] + [raws[r]] == done + raws[..r + 1]
  {
    assert raws[..r + 1] == raws[..r] + [raws[r]];
  }

  /** How often `key` occurs among the normalized assumptions. */
  function AssumptionCount(raws: seq<string>, key: string): nat {
    multiset(Normalized(raws))[key]
  }

  /** The counts of `keys`, as sort keys. */
  function CountKeys(raws: seq<string>, keys: seq<string>): (r: seq<real>)
    ensures |r| == |keys|
  {
    seq(|keys|, p requires 0 <= p < |keys| => AssumptionCount(raws, keys[p]) as real)
  }

  /** The keys of `sorted(assumption_counts.items(), key=count, reverse=True)[:3]`,
      where the dict lists its keys in first-seen order. */
  function TopAssumptions(raws: seq<string>): (r: seq<string>)
    ensures |r| <= 3
    ensures forall t :: 0 <= t < |r| ==> r[t] in Normalized(raws)
  {
    var keys := Distinct(Normalized(raws));
    var sortedKeys := Pick(keys, Sorting.SortDesc(CountKeys(raws, keys)));
    assert forall t :: 0 <= t < |sortedKeys| ==> sortedKeys[t] in keys;
    Take(sortedKeys, 3)
  }

  /** The top assumptions are the first entries of the ranked keys. */
  lemma TopAssumptionsPick(raws: seq<string>)
    ensures var keys := Distinct(Normalized(raws));
            var order := Sorting.SortDesc(CountKeys(raws, keys));
            var top := TopAssumptions(raws);
            |top| == (if |keys| < 3 then |keys| else 3)
            && forall t :: 0 <= t < |top| ==> top[t] == keys[order[t]]
  {
    var keys := Distinct(Normalized(raws));
    var sk := Pick(keys, Sorting.SortDesc(CountKeys(raws, keys)));
    assert TopAssumptions(raws) == sk[..|TopAssumptions(raws)|];
  }

  /** `top_assumptions` lists at most three distinct keys, most frequent
      first, equal counts in first-seen order. */
  lemma TopAssumptionsOrdered(raws: seq<string>)
    ensures var top := TopAssumptions(raws);
            var keys := Distinct(Normalized(raws));
            |top| == (if |keys| < 3 then |keys| else 3)
            && NoDuplicates(top)
            && (forall t, u :: 0 <= t < u < |top| ==> AssumptionCount(raws, top[t]) >= AssumptionCount(raws, top[u]))
            && (forall t, u :: 0 <= t < u < |top|
                  && AssumptionCount(raws, top[t]) == AssumptionCount(raws, top[u])
                  ==> FirstIndex(Normalized(raws), top[t]) < FirstIndex(Normalized(raws), top[u]))
  {
    var top := TopAssumptions(raws);
    var norm := Normalized(raws);
    var keys := Distinct(norm);
    var cs := CountKeys(raws, keys);
    var order := Sorting.SortDesc(cs);
    TopAssumptionsPick(raws);
    forall t, u | 0 <= t < u < |top|
      ensures top[t] != top[u]
      ensures AssumptionCount(raws, top[t]) >= AssumptionCount(raws, top[u])
      ensures AssumptionCount(raws, top[t]) == AssumptionCount(raws, top[u]) ==>
                FirstIndex(norm, top[t]) < FirstIndex(norm, top[u])
    {
      assert cs[order[t]] >= cs[order[u]];
      if AssumptionCount(raws, top[t]) == AssumptionCount(raws, top[u]) {
        assert order[t] < order[u];
        DistinctOrder(norm, order[t], order[u]);
      }
    }
  }

  /** No normalized assumption left out of `top_assumptions` is more
      frequent than one listed. */
  lemma TopAssumptionsMostFrequent(raws: seq<string>, k: string)
    requires k in Normalized(raws) && k !in TopAssumptions(raws)
    ensures forall t :: 0 <= t < |TopAssumptions(raws)| ==>
              AssumptionCount(raws, k) <= AssumptionCount(raws, TopAssumptions(raws)[t])
  {
    var top := TopAssumptions(raws);
    var keys := Distinct(Normalized(raws));
    var cs := CountKeys(raws, keys);
    var order := Sorting.SortDesc(cs);
    var q := RankBeyondTop(raws, k);
    TopAssumptionsPick(raws);
    forall t | 0 <= t < |top| ensures AssumptionCount(raws, k) <= AssumptionCount(raws, top[t]) {
      assert cs[order[t]] >= cs[order[q]];
    }
  }

  /** A key left out of the top is ranked after every listed one. */
  lemma RankBeyondTop(raws: seq<string>, k: string) returns (q: nat)
    requires k in Normalized(raws) && k !in TopAssumptions(raws)
    ensures var keys := Distinct(Normalized(raws));
            var order := Sorting.SortDesc(CountKeys(raws, keys));
            |TopAssumptions(raws)| <= q < |order| && keys[order[q]] == k
  {
    var top := TopAssumptions(raws);
    var keys := Distinct(Normalized(raws));
    var order := Sorting.SortDesc(CountKeys(raws, keys));
    assert top == Pick(keys, order)[..|top|];
    q := PickedLater(keys, order, |top|, k);
  }

  /** The labels of the top assumptions, most frequent first. */
  function TopLabels(raws: seq<string>): (r: seq<string>)
    ensures |r| == |TopAssumptions(raws)|
    ensures forall t :: 0 <= t < |r| ==> r[t] == FirstLabel(raws, TopAssumptions(raws)[t])
  {
    var top := TopAssumptions(raws);
    seq(|top|, t requires 0 <= t < |top| => FirstLabel(raws, top[t]))
  }

  /** The string `build_family_signature` returns: its assumptions part
      reads "None" when no member has an assumption with a non-empty normal
      form. */
  function FamilySignature(members: seq<RunRecord>, representative: RunRecord): (r: string)
    ensures Normalized(AllRaws(members)) == [] ==> r == "Assumptions: None" + StepsPart(representative)
  {
    SignatureNoneIffNoAssumption(members);
    var assumptionText := Join(", ", TopLabels(AllRaws(members)));
    AssumptionsPart(assumptionText) + StepsPart(representative)
  }

  /** `f"Assumptions: {assumption_text or 'None'}"` */
  function AssumptionsPart(assumptionText: string): string {
    if assumptionText == "" then "Assumptions: None" else "Assumptions: " + assumptionText
  }

  /** `f" | Steps: {steps_text or 'N/A'}"` over the first three plan steps. */
  function StepsPart(representative: RunRecord): string {
    var stepsText := Join(" | ", Take(representative.planSteps, 3));
    " | Steps: " + (if stepsText == "" then "N/A" else stepsText)
  }

  /** The signature reads "Assumptions: None" exactly when no member has an
      assumption that normalizes to a non-empty text. */
  lemma SignatureNoneIffNoAssumption(members: seq<RunRecord>)
    ensures Join(", ", TopLabels(AllRaws(members))) == "" <==> Normalized(AllRaws(members)) == []
  {
    var raws := AllRaws(members);
    if Normalized(raws) != [] {
      LabelsJoinNonEmpty(raws);
    } else {
      TopAssumptionsPick(raws);
    }
  }

  /** With some assumption left after normalizing, the labels join to a
      non-empty text. */
  lemma LabelsJoinNonEmpty(raws: seq<string>)
    requires Normalized(raws) != []
    ensures Join(", ", TopLabels(raws)) != ""
  {
    TopAssumptionsPick(raws);
    assert Normalized(raws)[0] in Distinct(Normalized(raws));
    FirstLabelNonEmpty(raws, TopAssumptions(raws)[0]);
    JoinHead(", ", TopLabels(raws));
  }

  /** A label is never empty: it normalizes to a non-empty key. */
  lemma FirstLabelNonEmpty(raws: seq<string>, key: string)
    requires key in Normalized(raws)
    ensures FirstLabel(raws, key) != ""
  {
    assert NormalizeAssumption("") == "";
  }

  /** What the counting loop of `build_family_signature` knows after reading `done`. */
  ghost predicate Tally(done: seq<string>, counts: map<string, nat>, labels: map<string, string>, order: seq<string>) {
    OrderOk(done, order) && CountsOk(done, counts) && LabelsOk(done, labels)
  }

  /** The dict's keys are the normalized assumptions in first-seen order. */
  ghost predicate OrderOk(done: seq<string>, order: seq<string>) {
    order == Distinct(Normalized(done))
  }

  /** `assumption_counts` maps every normalized assumption to its count. */
  ghost predicate CountsOk(done: seq<string>, counts: map<string, nat>) {
    (forall k :: k in counts <==> k in Normalized(done))
    && (forall k :: k in counts ==> counts[k] == AssumptionCount(done, k))
  }

  /** `assumption_labels` maps every normalized assumption to its first raw text. */
  ghost predicate LabelsOk(done: seq<string>, labels: map<string, string>) {
    (forall k :: k in labels <==> k in Normalized(done))
    && (forall k :: k in labels ==> labels[k] == FirstLabel(done, k))
  }

  /** Reading one more raw assumption. */
  lemma TallyStep(done: seq<string>, raw: string)
    ensures Normalized(done + [raw]) == Normalized(done)
              + (if NormalizeAssumption(raw) == "" then [] else [NormalizeAssumption(raw)])
    ensures forall k :: k in Normalized(done) ==> FirstLabel(done + [raw], k) == FirstLabel(done, k)
    ensures NormalizeAssumption(raw) != "" && NormalizeAssumption(raw) !in Normalized(done)
            ==> FirstLabel(done + [raw], NormalizeAssumption(raw)) == raw
  {
    assert (done + [raw])[..|done|] == done;
  }

  /** The counting loops of `build_family_signature`: per normalized
      assumption its count and first label, keys in first-seen order. */
  method CountAssumptions(members: seq<RunRecord>)
    returns (counts: map<string, nat>, labels: map<string, string>, order: seq<string>)
    ensures Tally(AllRaws(members), counts, labels, order)
  {
    counts, labels, order := map[], map[], [];
    ghost var done: seq<string> := [];
    var m := 0;
    while m < |members|
      invariant 0 <= m <= |members|
      invariant done == AllRaws(members[..m])
      invariant Tally(done, counts, labels, order)
    {
      var raws := members[m].assumptionsRaw;
      var r := 0;
      while r < |raws|
        invariant 0 <= r <= |raws|
        invariant done == AllRaws(members[..m]) + raws[..r]
        invariant Tally(done, counts, labels, order)
      {
        counts, labels, order := CountOne(raws[r], counts, labels, order, done);
        PrefixStep(AllRaws(members[..m]), raws, r);
        done := done + [raws[r]];
        r := r + 1;
      }
      AllRawsStep(members, m);
      m := m + 1;
    }
    assert members[..m] == members;
  }

  /** One step of the inner loop: count `raw` and keep its label if new. */
  method CountOne(raw: string, counts: map<string, nat>, labels: map<string, string>, order: seq<string>,
                  ghost done: seq<string>)
    returns (counts': map<string, nat>, labels': map<string, string>, order': seq<string>)
    requires Tally(done, counts, labels, order)
    ensures Tally(done + [raw], counts', labels', order')
  {
    var normalized := NormalizeAssumption(raw);
    if normalized == "" {
      // `continue`
      TallySkip(done, raw, counts, labels, order);
      return counts, labels, order;
    }
    // a new key of `assumption_counts` goes to the end of its key order
    order' := if normalized in counts then order else order + [normalized];
    counts' := Increment(counts, normalized);
    labels' := SetDefault(labels, normalized, raw);
    OrderStep(done, raw, counts, order);
    CountsStep(done, raw, counts);
    LabelsStep(done, raw, labels);
  }

  /** `counts[key] = counts.get(key, 0) + 1` */
  function Increment(counts: map<string, nat>, key: string): (r: map<string, nat>)
    ensures key in r && r[key] == (if key in counts then counts[key] else 0) + 1
    ensures forall k :: k in r <==> k in counts || k == key
    ensures forall k :: k in counts && k != key ==> r[k] == counts[k]
  {
    counts[key := (if key in counts then counts[key] else 0) + 1]
  }

  /** `labels.setdefault(key, value)` */
  function SetDefault(labels: map<string, string>, key: string, value: string): (r: map<string, string>)
    ensures key in r && r[key] == (if key in labels then labels[key] else value)
    ensures forall k :: k in r <==> k in labels || k == key
    ensures forall k :: k in labels ==> r[k] == labels[k]
  {
    if key in labels then labels else labels[key := value]
  }

  /** A raw assumption that normalizes to nothing is skipped. */
  lemma TallySkip(done: seq<string>, raw: string, counts: map<string, nat>, labels: map<string, string>,
                  order: seq<string>)
    requires Tally(done, counts, labels, order) && NormalizeAssumption(raw) == ""
    ensures Tally(done + [raw], counts, labels, order)
  {
    TallyStep(done, raw);
    CountsSkip(done, raw, counts);
    LabelsSkip(done, raw, labels);
  }

  lemma CountsSkip(done: seq<string>, raw: string, counts: map<string, nat>)
    requires CountsOk(done, counts) && Normalized(done + [raw]) == Normalized(done)
    ensures CountsOk(done + [raw], counts)
  {
    var n := Normalized(done);
    forall k | k in counts ensures counts[k] == AssumptionCount(done + [raw], k) {
      assert AssumptionCount(done + [raw], k) == multiset(n)[k];
    }
  }

  lemma LabelsSkip(done: seq<string>, raw: string, labels: map<string, string>)
    requires LabelsOk(done, labels) && Normalized(done + [raw]) == Normalized(done)
    ensures LabelsOk(done + [raw], labels)
  {
    TallyStep(done, raw);
  }

  lemma OrderStep(done: seq<string>, raw: string, counts: map<string, nat>, order: seq<string>)
    requires OrderOk(done, order) && CountsOk(done, counts) && NormalizeAssumption(raw) != ""
    ensures var n := NormalizeAssumption(raw);
            OrderOk(done + [raw], if n in counts then order else order + [n])
  {
    TallyStep(done, raw);
    DistinctSnoc(Normalized(done), NormalizeAssumption(raw));
  }

  lemma CountsStep(done: seq<string>, raw: string, counts: map<string, nat>)
    requires CountsOk(done, counts) && NormalizeAssumption(raw) != ""
    ensures CountsOk(done + [raw], Increment(counts, NormalizeAssumption(raw)))
  {
    var n := NormalizeAssumption(raw);
    var counts' := Increment(counts, n);
    TallyStep(done, raw);
    forall k | k in counts' ensures counts'[k] == AssumptionCount(done + [raw], k) {
      CountStep(done, raw, k);
    }
  }

  /** Counting one more non-empty key adds one to its count and to no other. */
  lemma CountStep(done: seq<string>, raw: string, k: string)
    requires NormalizeAssumption(raw) != ""
    ensures AssumptionCount(done + [raw], k)
            == (if k in Normalized(done) then AssumptionCount(done, k) else 0)
               + (if k == NormalizeAssumption(raw) then 1 else 0)
  {
    var n := NormalizeAssumption(raw);
    TallyStep(done, raw);
    assert multiset(Normalized(done) + [n]) == multiset(Normalized(done)) + multiset{n};
  }

  lemma LabelsStep(done: seq<string>, raw: string, labels: map<string, string>)
    requires LabelsOk(done, labels) && NormalizeAssumption(raw) != ""
    ensures LabelsOk(done + [raw], SetDefault(labels, NormalizeAssumption(raw), raw))
  {
    TallyStep(done, raw);
  }

  /** The counts of `keys` read from the tally, as sort keys. */
  function CountsOf(counts: map<string, nat>, keys: seq<string>): (r: seq<real>)
    requires forall t :: 0 <= t < |keys| ==> keys[t] in counts
    ensures |r| == |keys|
  {
    seq(|keys|, t requires 0 <= t < |keys| => counts[keys[t]] as real)
  }

  /** `build_family_signature(members, representative)` */
  method BuildFamilySignature(members: seq<RunRecord>, representative: RunRecord) returns (signature: string)
    ensures signature == FamilySignature(members, representative)
  {
    var counts, labels, order := CountAssumptions(members);
    ghost var raws := AllRaws(members);
    TallyTop(raws, counts, labels, order);
    var sorted := Sorting.SortDesc(CountsOf(counts, order));
    var top := Take(Pick(order, sorted), 3);
    var labelList := Lookup(labels, top);
    assert top == TopAssumptions(raws);
    assert labelList == TopLabels(raws);
    var assumptionText := Join(", ", labelList);
    signature := AssumptionsPart(assumptionText) + StepsPart(representative);
  }

  /** What the tally gives the end of `build_family_signature`: the sort
      ranks the same keys as `TopAssumptions`, and the labels are the first
      raw texts. */
  lemma TallyTop(raws: seq<string>, counts: map<string, nat>, labels: map<string, string>, order: seq<string>)
    requires Tally(raws, counts, labels, order)
    ensures forall p :: 0 <= p < |order| ==> order[p] in counts
    ensures order == Distinct(Normalized(raws)) && CountsOf(counts, order) == CountKeys(raws, order)
    ensures forall t :: 0 <= t < |TopAssumptions(raws)| ==> TopAssumptions(raws)[t] in labels
    ensures Lookup(labels, TopAssumptions(raws)) == TopLabels(raws)
  {
    TallyCounts(raws, counts, order);
    TallyLabels(raws, labels);
  }

  lemma TallyCounts(raws: seq<string>, counts: map<string, nat>, order: seq<string>)
    requires OrderOk(raws, order) && CountsOk(raws, counts)
    ensures forall p :: 0 <= p < |order| ==> order[p] in counts
    ensures CountsOf(counts, order) == CountKeys(raws, order)
  {
    forall p | 0 <= p < |order| ensures order[p] in Normalized(raws) { assert order[p] in order; }
  }

  lemma TallyLabels(raws: seq<string>, labels: map<string, string>)
    requires LabelsOk(raws, labels)
    ensures forall t :: 0 <= t < |TopAssumptions(raws)| ==> TopAssumptions(raws)[t] in labels
    ensures Lookup(labels, TopAssumptions(raws)) == TopLabels(raws)
  {
  }

  // ---------------------------------------------------------------------
  // cluster_runs
  // ---------------------------------------------------------------------

  /** The test `cluster_runs` applies to runs `i < j`: plan embeddings close
      enough or assumption sets overlapping enough. */
  predicate Linked(records: seq<RunRecord>, planThreshold: real, assumptionThreshold: real,
                   cosine: (seq<real>, seq<real>) -> real, i: nat, j: nat)
    requires i < |records| && j < |records|
  {
    cosine(records[i].planEmbedding, records[j].planEmbedding) >= planThreshold
    || Jaccard(records[i].assumptionSet, records[j].assumptionSet) >= assumptionThreshold
  }

  /** Runs `a` and `b` form a pair the loops found linked, in either order. */
  ghost predicate Edge(records: seq<RunRecord>, pt: real, at: real, cosine: (seq<real>, seq<real>) -> real,
                       a: nat, b: nat)
  {
    a < |records| && b < |records|
    && ((a < b && Linked(records, pt, at, cosine, a, b)) || (b < a && Linked(records, pt, at, cosine, b, a)))
  }

  ghost predicate EdgeAt(records: seq<RunRecord>, pt: real, at: real, cosine: (seq<real>, seq<real>) -> real,
                         path: seq<nat>, s: nat)
    requires s + 1 < |path|
  {
    Edge(records, pt, at, cosine, path[s], path[s + 1])
  }

  /** `path` walks from run to run, each step a linked pair. */
  ghost predicate IsPath(records: seq<RunRecord>, pt: real, at: real, cosine: (seq<real>, seq<real>) -> real,
                         path: seq<nat>)
  {
    path != []
    && (forall s :: 0 <= s < |path| ==> path[s] < |records|)
    && (forall s :: 0 <= s < |path| - 1 ==> EdgeAt(records, pt, at, cosine, path, s))
  }

  /** Runs `x` and `y` are joined by a chain of linked pairs. */
  ghost predicate Connected(records: seq<RunRecord>, pt: real, at: real, cosine: (seq<real>, seq<real>) -> real,
                            x: nat, y: nat)
  {
    exists path :: IsPath(records, pt, at, cosine, path) && path[0] == x && path[|path| - 1] == y
  }

  lemma ConnectedSelf(records: seq<RunRecord>, pt: real, at: real, cosine: (seq<real>, seq<real>) -> real, x: nat)
    requires x < |records|
    ensures Connected(records, pt, at, cosine, x, x)
  {
    assert IsPath(records, pt, at, cosine, [x]);
  }

  lemma ConnectedEdge(records: seq<RunRecord>, pt: real, at: real, cosine: (seq<real>, seq<real>) -> real, x: nat, y: nat)
    requires x < y < |records| && Linked(records, pt, at, cosine, x, y)
    ensures Connected(records, pt, at, cosine, x, y) && Connected(records, pt, at, cosine, y, x)
  {
    assert EdgeAt(records, pt, at, cosine, [x, y], 0);
    assert IsPath(records, pt, at, cosine, [x, y]);
    assert EdgeAt(records, pt, at, cosine, [y, x], 0);
    assert IsPath(records, pt, at, cosine, [y, x]);
  }

  lemma ConnectedTrans(records: seq<RunRecord>, pt: real, at: real, cosine: (seq<real>, seq<real>) -> real,
                       x: nat, y: nat, z: nat)
    requires Connected(records, pt, at, cosine, x, y) && Connected(records, pt, at, cosine, y, z)
    ensures Connected(records, pt, at, cosine, x, z)
  {
    var p1 :| IsPath(records, pt, at, cosine, p1) && p1[0] == x && p1[|p1| - 1] == y;
    var p2 :| IsPath(records, pt, at, cosine, p2) && p2[0] == y && p2[|p2| - 1] == z;
    var p := p1 + p2[1..];
    forall s | 0 <= s < |p| ensures p[s] < |records| {
      if s < |p1| { assert p[s] == p1[s]; } else { assert p[s] == p2[s - |p1| + 1]; }
    }
    forall s | 0 <= s < |p| - 1 ensures EdgeAt(records, pt, at, cosine, p, s) {
      if s < |p1| - 1 {
        assert p[s] == p1[s] && p[s + 1] == p1[s + 1];
        assert EdgeAt(records, pt, at, cosine, p1, s);
      } else {
        var s2 := s - |p1| + 1;
        assert p[s] == p2[s2] && p[s + 1] == p2[s2 + 1];
        assert EdgeAt(records, pt, at, cosine, p2, s2);
      }
    }
    assert IsPath(records, pt, at, cosine, p);
  }

  lemma ConnectedSym(records: seq<RunRecord>, pt: real, at: real, cosine: (seq<real>, seq<real>) -> real, x: nat, y: nat)
    requires Connected(records, pt, at, cosine, x, y)
    ensures Connected(records, pt, at, cosine, y, x)
  {
    var p :| IsPath(records, pt, at, cosine, p) && p[0] == x && p[|p| - 1] == y;
    var q := Reverse(p);
    forall s | 0 <= s < |q| - 1 ensures EdgeAt(records, pt, at, cosine, q, s) {
      var t := |p| - 2 - s;
      assert q[s] == p[t + 1] && q[s + 1] == p[t];
      assert EdgeAt(records, pt, at, cosine, p, t);
    }
    assert IsPath(records, pt, at, cosine, q);
  }

  /** Every linked pair `(p, q)` that the nested loops have tested before
      reaching row `i`, column `j` shares a root. */
  ghost predicate TestedShareRoot(records: seq<RunRecord>, pt: real, at: real, cosine: (seq<real>, seq<real>) -> real,
                                  roots: seq<nat>, i: nat, j: nat)
    requires |roots| == |records|
  {
    forall p, q :: 0 <= p < q < |records| && (p < i || (p == i && q < j)) && Linked(records, pt, at, cosine, p, q) ==>
      roots[p] == roots[q]
  }

  /** Every linked pair shares a root. */
  ghost predicate LinkedShareRoot(records: seq<RunRecord>, pt: real, at: real, cosine: (seq<real>, seq<real>) -> real,
                                  roots: seq<nat>)
    requires |roots| == |records|
  {
    forall p, q :: 0 <= p < q < |records| && Linked(records, pt, at, cosine, p, q) ==> roots[p] == roots[q]
  }

  /** Runs that share a root are connected. */
  ghost predicate RootsConnected(records: seq<RunRecord>, pt: real, at: real, cosine: (seq<real>, seq<real>) -> real,
                                 roots: seq<nat>)
    requires |roots| == |records|
  {
    forall x, y :: 0 <= x < |roots| && 0 <= y < |roots| && roots[x] == roots[y] ==> Connected(records, pt, at, cosine, x, y)
  }

  /** Before any union every run is its own root, connected to itself. */
  lemma SingletonsConnected(records: seq<RunRecord>, pt: real, at: real, cosine: (seq<real>, seq<real>) -> real,
                            roots: seq<nat>)
    requires |roots| == |records| && forall x :: 0 <= x < |roots| ==> roots[x] == x
    ensures TestedShareRoot(records, pt, at, cosine, roots, 0, 1)
    ensures RootsConnected(records, pt, at, cosine, roots)
  {
    forall x, y | 0 <= x < |roots| && 0 <= y < |roots| && roots[x] == roots[y]
      ensures Connected(records, pt, at, cosine, x, y)
    {
      ConnectedSelf(records, pt, at, cosine, x);
    }
  }

  /** `uf.union(i, j)` on a linked pair: it now shares a root, every pair
      that shared one still does, and runs sharing a root stay connected. */
  lemma UnionStep(records: seq<RunRecord>, pt: real, at: real, cosine: (seq<real>, seq<real>) -> real,
                  r0: seq<nat>, i: nat, j: nat)
    requires |r0| == |records| && i < j < |records| && Linked(records, pt, at, cosine, i, j)
    requires TestedShareRoot(records, pt, at, cosine, r0, i, j) && RootsConnected(records, pt, at, cosine, r0)
    ensures TestedShareRoot(records, pt, at, cosine, Relabel(r0, r0[j], r0[i]), i, j + 1)
    ensures RootsConnected(records, pt, at, cosine, Relabel(r0, r0[j], r0[i]))
  {
    var r1 := Relabel(r0, r0[j], r0[i]);
    ConnectedEdge(records, pt, at, cosine, i, j);
    forall x, y | 0 <= x < |r1| && 0 <= y < |r1| && r1[x] == r1[y]
      ensures Connected(records, pt, at, cosine, x, y)
    {
      if r0[x] == r0[j] && r0[y] != r0[j] {
        // x ~ j ~ i ~ y
        ConnectedTrans(records, pt, at, cosine, x, j, i);
        ConnectedTrans(records, pt, at, cosine, x, i, y);
      } else if r0[x] != r0[j] && r0[y] == r0[j] {
        // x ~ i ~ j ~ y
        ConnectedTrans(records, pt, at, cosine, x, i, j);
        ConnectedTrans(records, pt, at, cosine, x, j, y);
      }
    }
  }

  /** A pair that is not linked changes nothing. */
  lemma SkipStep(records: seq<RunRecord>, pt: real, at: real, cosine: (seq<real>, seq<real>) -> real,
                 roots: seq<nat>, i: nat, j: nat)
    requires |roots| == |records| && i < j < |records| && !Linked(records, pt, at, cosine, i, j)
    requires TestedShareRoot(records, pt, at, cosine, roots, i, j)
    ensures TestedShareRoot(records, pt, at, cosine, roots, i, j + 1)
  {
  }

  /** Finishing row `i` of the nested loops. */
  lemma RowDone(records: seq<RunRecord>, pt: real, at: real, cosine: (seq<real>, seq<real>) -> real,
                roots: seq<nat>, i: nat)
    requires |roots| == |records| && TestedShareRoot(records, pt, at, cosine, roots, i, |records|)
    ensures TestedShareRoot(records, pt, at, cosine, roots, i + 1, i + 2)
    ensures i + 1 >= |records| ==> LinkedShareRoot(records, pt, at, cosine, roots)
  {
  }

  /** Along a path every run has the root of its start, when linked pairs share roots. */
  lemma {:induction false} PathSameRoot(records: seq<RunRecord>, pt: real, at: real, cosine: (seq<real>, seq<real>) -> real,
                                        roots: seq<nat>, path: seq<nat>, s: nat)
    requires |roots| == |records| && LinkedShareRoot(records, pt, at, cosine, roots)
    requires IsPath(records, pt, at, cosine, path) && s < |path|
    ensures roots[path[s]] == roots[path[0]]
  {
    if s > 0 {
      PathSameRoot(records, pt, at, cosine, roots, path, s - 1);
      assert EdgeAt(records, pt, at, cosine, path, s - 1);
    }
  }

  /** A list of run positions a family can be built from. */
  predicate ValidGroup(g: seq<nat>, n: nat) {
    g != [] && forall p :: 0 <= p < |g| ==> g[p] < n
  }

  /** The family `cluster_runs` builds, as its `number`-th, from the runs at
      positions `g`: the first of them represents it. */
  function MakeFamily(records: seq<RunRecord>, g: seq<nat>, number: nat): (r: FamilyResult)
    requires ValidGroup(g, |records|)
    ensures r.familyId == "family_" + NatToString(number)
    ensures |r.runIds| == |g| > 0 && forall p :: 0 <= p < |g| ==> r.runIds[p] == records[g[p]].runId
    ensures r.representativeRunId == r.runIds[0]
  {
    var members := Pick(records, g);
    FamilyResult("family_" + NatToString(number), RunIds(members), records[g[0]].runId,
                 FamilySignature(members, records[g[0]]))
  }

  function RunIds(members: seq<RunRecord>): (r: seq<string>)
    ensures |r| == |members| && forall p :: 0 <= p < |r| ==> r[p] == members[p].runId
  {
    seq(|members|, p requires 0 <= p < |members| => members[p].runId)
  }

  /** `cluster_runs(run_records, plan_threshold, assumption_threshold)`:
      the families partition the runs, listed and numbered in the order of
      their first run; two runs share a family exactly when a chain of
      linked pairs joins them. */
  method ClusterRuns(records: seq<RunRecord>, planThreshold: real, assumptionThreshold: real,
                     cosine: (seq<real>, seq<real>) -> real)
    returns (families: seq<FamilyResult>, ghost groups: seq<seq<nat>>)
    ensures records == [] ==> families == []
    ensures |families| == |groups| && IsPartition(groups, |records|) && OrderedByFirst(groups)
    ensures families == MakeFamilies(records, groups)
    ensures forall k, x, y :: 0 <= k < |groups| && x in groups[k] && 0 <= y < |records| ==>
              (y in groups[k] <==> Connected(records, planThreshold, assumptionThreshold, cosine, x, y))
  {
    if |records| == 0 {
      return [], [];
    }
    var uf := new UnionFind(|records|);
    UnionLinked(uf, records, planThreshold, assumptionThreshold, cosine);
    ghost var roots := uf.Roots();
    var rootOrder, clusters := GroupByRoot(uf);
    ClustersGrouped(roots);
    GroupedClusters(roots, rootOrder, clusters);

    // `enumerate(clusters.values(), start=1)`
    var values := Lookup(clusters, rootOrder);
    families := BuildFamilies(records, values);
    groups := values;
    GroupsPartition(roots, rootOrder, groups);
    GroupsConnected(records, planThreshold, assumptionThreshold, cosine, roots, rootOrder, groups);
  }

  /** The last loop of `cluster_runs`: the `k`-th list of runs becomes
      the family numbered `k + 1`. */
  method BuildFamilies(records: seq<RunRecord>, groups: seq<seq<nat>>) returns (families: seq<FamilyResult>)
    requires forall t :: 0 <= t < |groups| ==> ValidGroup(groups[t], |records|)
    ensures families == MakeFamilies(records, groups)
  {
    ghost var expected := MakeFamilies(records, groups);
    families := [];
    var k := 0;
    while k < |groups|
      invariant 0 <= k <= |groups| && families == expected[..k]
    {
      var family := BuildFamily(records, groups, k);
      PrefixSnoc(expected, k);
      families := families + [family];
      k := k + 1;
    }
  }

  /** One iteration of that loop. */
  method BuildFamily(records: seq<RunRecord>, groups: seq<seq<nat>>, k: nat) returns (family: FamilyResult)
    requires k < |groups| && forall t :: 0 <= t < |groups| ==> ValidGroup(groups[t], |records|)
    ensures family == MakeFamilies(records, groups)[k]
  {
    var indices := groups[k];
    var number := k + 1;
    var members := Pick(records, indices);
    var representative := members[0];
    var signature := BuildFamilySignature(members, representative);
    family := FamilyResult("family_" + NatToString(number), RunIds(members), representative.runId, signature);
    assert family == MakeFamily(records, indices, number);
  }

  /** The families numbered from 1, one per list of runs. */
  function MakeFamilies(records: seq<RunRecord>, groups: seq<seq<nat>>): (r: seq<FamilyResult>)
    requires forall t :: 0 <= t < |groups| ==> ValidGroup(groups[t], |records|)
    ensures |r| == |groups|
  {
    seq(|groups|, t requires 0 <= t < |groups| => MakeFamily(records, groups[t], t + 1))
  }

  /** Families are named `family_1`, `family_2`, ... in order; each lists the
      ids of its runs in position order, and the first of them represents it. */
  lemma FamiliesShape(records: seq<RunRecord>, groups: seq<seq<nat>>)
    requires forall t :: 0 <= t < |groups| ==> ValidGroup(groups[t], |records|)
    ensures var fs := MakeFamilies(records, groups);
      forall k :: 0 <= k < |fs| ==> fs[k].familyId == "family_" + NatToString(k + 1)
    ensures var fs := MakeFamilies(records, groups);
      forall k :: 0 <= k < |fs| ==> |fs[k].runIds| == |groups[k]| > 0 && fs[k].representativeRunId == fs[k].runIds[0]
    ensures var fs := MakeFamilies(records, groups);
      forall k, p :: 0 <= k < |fs| && 0 <= p < |groups[k]| ==> fs[k].runIds[p] == records[groups[k][p]].runId
  {
    var fs := MakeFamilies(records, groups);
    forall k | 0 <= k < |fs|
      ensures fs[k] == MakeFamily(records, groups[k], k + 1)
    {
    }
  }

  /** The nested loops of `cluster_runs`: `uf.union(i, j)` for every linked
      pair `i < j`. Afterwards linked runs share a root, and runs sharing a
      root are connected. */
  method UnionLinked(uf: UnionFind, records: seq<RunRecord>, planThreshold: real, assumptionThreshold: real,
                     cosine: (seq<real>, seq<real>) -> real)
    requires uf.Valid() && uf.parent.Length == |records|
    requires forall x :: 0 <= x < |records| ==> uf.Roots()[x] == x
    modifies uf, uf.parent
    ensures uf.Valid() && uf.parent == old(uf.parent)
    ensures LinkedShareRoot(records, planThreshold, assumptionThreshold, cosine, uf.Roots())
    ensures RootsConnected(records, planThreshold, assumptionThreshold, cosine, uf.Roots())
  {
    var n := |records|;
    SingletonsConnected(records, planThreshold, assumptionThreshold, cosine, uf.Roots());
    if n == 0 {
      return;
    }
    var i := 0;
    while i < n
      invariant 0 <= i <= n && uf.Valid() && uf.parent == old(uf.parent)
      invariant TestedShareRoot(records, planThreshold, assumptionThreshold, cosine, uf.Roots(), i, i + 1)
      invariant RootsConnected(records, planThreshold, assumptionThreshold, cosine, uf.Roots())
      invariant i == n ==> LinkedShareRoot(records, planThreshold, assumptionThreshold, cosine, uf.Roots())
    {
      var j := i + 1;
      while j < n
        invariant i < j <= n && uf.Valid() && uf.parent == old(uf.parent)
        invariant TestedShareRoot(records, planThreshold, assumptionThreshold, cosine, uf.Roots(), i, j)
        invariant RootsConnected(records, planThreshold, assumptionThreshold, cosine, uf.Roots())
      {
        var cosineScore := cosine(records[i].planEmbedding, records[j].planEmbedding);
        var jaccard := Jaccard(records[i].assumptionSet, records[j].assumptionSet);
        if cosineScore >= planThreshold || jaccard >= assumptionThreshold {
          UnionStep(records, planThreshold, assumptionThreshold, cosine, uf.Roots(), i, j);
          uf.Union(i, j);
        } else {
          SkipStep(records, planThreshold, assumptionThreshold, cosine, uf.Roots(), i, j);
        }
        j := j + 1;
      }
      RowDone(records, planThreshold, assumptionThreshold, cosine, uf.Roots(), i);
      i := i + 1;
    }
  }

  /** The dict `clusters` after reading the roots `prefix`: keys in
      first-seen order, each with the positions holding it. */
  ghost predicate Grouped(prefix: seq<nat>, rootOrder: seq<nat>, clusters: map<nat, seq<nat>>) {
    rootOrder == Distinct(prefix)
    && (forall r :: r in clusters <==> r in rootOrder)
    && (forall r :: r in clusters ==> clusters[r] == Positions(prefix, r))
  }

  /** The dict `clusters`, with its key order, after
      `clusters.setdefault(root, []).append(idx)` has read the roots `s`. */
  function Clusters(s: seq<nat>): (seq<nat>, map<nat, seq<nat>>)
  {
    if s == [] then ([], map[])
    else
      var prev := Clusters(s[..|s| - 1]);
      var root := s[|s| - 1];
      (if root in prev.1 then prev.0 else prev.0 + [root],
       Append(prev.1, root, |s| - 1))
  }

  /** `clusters.setdefault(root, []).append(idx)` */
  function Append(clusters: map<nat, seq<nat>>, root: nat, idx: nat): (r: map<nat, seq<nat>>)
    ensures r.Keys == clusters.Keys + {root}
    ensures r[root] == (if root in clusters then clusters[root] else []) + [idx]
    ensures forall k :: k in clusters && k != root ==> r[k] == clusters[k]
  {
    clusters[root := (if root in clusters then clusters[root] else []) + [idx]]
  }

  /** One step of the loop: reading the root of position `i`. */
  lemma ClustersStep(s: seq<nat>, i: nat, order: seq<nat>, clusters: map<nat, seq<nat>>)
    requires i < |s| && order == Clusters(s[..i]).0 && clusters == Clusters(s[..i]).1
    ensures (if s[i] in clusters then order else order + [s[i]]) == Clusters(s[..i + 1]).0
    ensures Append(clusters, s[i], i) == Clusters(s[..i + 1]).1
  {
    assert s[..i + 1][..i] == s[..i];
  }

  /** The dict groups the positions of `s` by value, keys in first-seen order. */
  lemma {:induction false} ClustersGrouped(s: seq<nat>)
    ensures Grouped(s, Clusters(s).0, Clusters(s).1)
  {
    if s != [] {
      var init, root := s[..|s| - 1], s[|s| - 1];
      ClustersGrouped(init);
      var (order, clusters) := Clusters(init);
      assert s == init + [root];
      DistinctSnoc(init, root);
      assert root in clusters <==> root in init;
      var (order', clusters') := Clusters(s);
      assert forall r :: r in clusters' <==> r in order';
      forall r | r in clusters' ensures clusters'[r] == Positions(init + [root], r) {
        PositionsSnoc(init, root, r);
        PositionsSpec(init, r);
      }
    }
  }

  /** The loop `clusters.setdefault(uf.find(idx), []).append(idx)`. */
  method GroupByRoot(uf: UnionFind) returns (rootOrder: seq<nat>, clusters: map<nat, seq<nat>>)
    requires uf.Valid()
    modifies uf.parent
    ensures uf.Valid() && uf.Roots() == old(uf.Roots())
    ensures (rootOrder, clusters) == Clusters(uf.Roots())
  {
    ghost var roots := uf.Roots();
    var n := uf.parent.Length;
    rootOrder, clusters := [], map[];
    var idx: nat := 0;
    while idx < n
      invariant 0 <= idx <= n && uf.Valid() && uf.parent.Length == n && uf.Roots() == roots
      invariant rootOrder == Clusters(roots[..idx]).0 && clusters == Clusters(roots[..idx]).1
    {
      var root := uf.Find(idx);
      ClustersStep(roots, idx, rootOrder, clusters);
      rootOrder := if root in clusters then rootOrder else rootOrder + [root];
      clusters := Append(clusters, root, idx);
      idx := idx + 1;
    }
    assert roots[..idx] == roots;
  }

  /** What `Grouped` gives the families loop: every key is a root with a
      non-empty list of runs. */
  lemma GroupedClusters(roots: seq<nat>, rootOrder: seq<nat>, clusters: map<nat, seq<nat>>)
    requires Grouped(roots, rootOrder, clusters)
    ensures forall t :: 0 <= t < |rootOrder| ==> rootOrder[t] in clusters
    ensures forall t :: 0 <= t < |rootOrder| ==> ValidGroup(Lookup(clusters, rootOrder)[t], |roots|)
    ensures GroupsOf(roots, rootOrder, Lookup(clusters, rootOrder))
  {
    forall t | 0 <= t < |rootOrder| ensures ValidGroup(clusters[rootOrder[t]], |roots|) {
      var g := clusters[rootOrder[t]];
      assert rootOrder[t] in rootOrder;
      PositionsFirst(roots, rootOrder[t]);
      PositionsSpec(roots, rootOrder[t]);
      assert forall p :: 0 <= p < |g| ==> g[p] in g;
    }
  }

  /** The groups `cluster_runs` reads off `roots`: for each root, in
      first-seen order, the positions holding it. */
  ghost predicate GroupsOf(roots: seq<nat>, rootOrder: seq<nat>, groups: seq<seq<nat>>) {
    rootOrder == Distinct(roots) && |groups| == |rootOrder|
    && forall t :: 0 <= t < |groups| ==> groups[t] == Positions(roots, rootOrder[t])
  }

  lemma GroupsMembership(roots: seq<nat>, rootOrder: seq<nat>, groups: seq<seq<nat>>)
    requires GroupsOf(roots, rootOrder, groups)
    ensures forall t, x :: 0 <= t < |groups| ==> (x in groups[t] <==> 0 <= x < |roots| && roots[x] == rootOrder[t])
  {
    forall t | 0 <= t < |groups| {
      PositionsSpec(roots, rootOrder[t]);
    }
  }

  /** The groups partition the runs and are ordered by their first run. */
  lemma GroupsPartition(roots: seq<nat>, rootOrder: seq<nat>, groups: seq<seq<nat>>)
    requires GroupsOf(roots, rootOrder, groups)
    ensures IsPartition(groups, |roots|) && OrderedByFirst(groups)
  {
    GroupsMembership(roots, rootOrder, groups);
    forall t | 0 <= t < |groups|
      ensures groups[t] != [] && Increasing(groups[t]) && groups[t][0] == FirstIndex(roots, rootOrder[t])
      ensures forall p :: 0 <= p < |groups[t]| ==> groups[t][p] < |roots|
    {
      assert rootOrder[t] in rootOrder;
      PositionsSpec(roots, rootOrder[t]);
      PositionsFirst(roots, rootOrder[t]);
      assert forall p :: 0 <= p < |groups[t]| ==> groups[t][p] in groups[t];
    }
    forall x | 0 <= x < |roots| ensures InGroupBefore(groups, |groups|, x) {
      assert roots[x] in rootOrder;
      var t :| 0 <= t < |rootOrder| && rootOrder[t] == roots[x];
      assert x in groups[t];
    }
    forall t1, t2 | 0 <= t1 < t2 < |groups| ensures groups[t1][0] < groups[t2][0] {
      DistinctOrder(roots, t1, t2);
    }
    forall t1, t2, x | 0 <= t1 < t2 < |groups| && x in groups[t1] ensures x !in groups[t2] {
      assert x < |roots| && roots[x] == rootOrder[t1];
      assert NoDuplicates(rootOrder);
      assert rootOrder[t1] != rootOrder[t2];
    }
  }

  /** Two runs share a group exactly when a chain of linked pairs joins them. */
  lemma GroupsConnected(records: seq<RunRecord>, pt: real, at: real, cosine: (seq<real>, seq<real>) -> real,
                        roots: seq<nat>, rootOrder: seq<nat>, groups: seq<seq<nat>>)
    requires |roots| == |records| && GroupsOf(roots, rootOrder, groups)
    requires LinkedShareRoot(records, pt, at, cosine, roots) && RootsConnected(records, pt, at, cosine, roots)
    ensures forall k, x, y :: 0 <= k < |groups| && x in groups[k] && 0 <= y < |records| ==>
              (y in groups[k] <==> Connected(records, pt, at, cosine, x, y))
  {
    GroupsMembership(roots, rootOrder, groups);
    forall k, x, y | 0 <= k < |groups| && x in groups[k] && 0 <= y < |records|
      ensures y in groups[k] <==> Connected(records, pt, at, cosine, x, y)
    {
      assert 0 <= x < |roots| && roots[x] == rootOrder[k];
      if y in groups[k] {
        assert roots[y] == roots[x];
      }
      if Connected(records, pt, at, cosine, x, y) {
        var path :| IsPath(records, pt, at, cosine, path) && path[0] == x && path[|path| - 1] == y;
        PathSameRoot(records, pt, at, cosine, roots, path, |path| - 1);
        assert roots[y] == rootOrder[k];
      }
    }
  }
}
