/** The in-memory TF-IDF vector store (`mprg/vectors.py`): tokenisation,
    term frequencies, inverse document frequencies, cosine similarity, the
    pairwise similarity matrix, `find_similar` and the threshold clustering
    of `get_clusters`. The logarithm and the square root are given, not
    computed. */
module Vectors {
  import opened Wrappers
  import opened Text
  import opened Collections
  import opened Groups
  import Sorting
  import opened Json

  /** The floating-point functions the store calls (`math.log`, `math.sqrt`). */
  datatype FloatOps = FloatOps(log: real -> real, sqrt: real -> real)

  /** A dict from terms to weights: its keys in insertion order and the mapping. */
  datatype Vec = Vec(keys: seq<string>, weight: map<string, real>)
  {
    /** The key list holds each key of the mapping once. */
    ghost predicate Valid() {
      NoDuplicates(keys) && forall k :: k in weight <==> k in keys
    }

    /** `vec.get(k, 0)` */
    function Get(k: string): real {
      if k in weight then weight[k] else 0.0
    }
  }

  // ---------------------------------------------------------------------
  // _tokenize
  // ---------------------------------------------------------------------

  /** A regular-expression word character (`\w`). */
  predicate WordChar(c: char) {
    IsAlnum(c) || c == '_'
  }

  /** What `\b[a-z]+\b` matches: a non-empty run of lower-case letters. */
  predicate IsToken(w: string) {
    w != [] && forall i :: 0 <= i < |w| ==> IsLower(w[i])
  }

  /** The length of the run of word characters that `s` starts with. */
  function WordRun(s: string): (n: nat)
    ensures n <= |s|
    ensures forall i :: 0 <= i < n ==> WordChar(s[i])
    ensures n < |s| ==> !WordChar(s[n])
  {
    if s == [] || !WordChar(s[0]) then 0 else 1 + WordRun(s[1..])
  }

  /** The matches of `\b[a-z]+\b` in `s`, in order. A match must start and
      end at a word boundary, so it is a whole run of word characters, and
      such a run is a match exactly when it consists of lower-case letters. */
  function Tokens(s: string): (r: seq<string>)
    ensures forall t :: 0 <= t < |r| ==> IsToken(r[t])
    decreases |s|
  {
    if s == [] then []
    else if !WordChar(s[0]) then Tokens(s[1..])
    else
      var n := WordRun(s);
      var w := s[..n];
      (if IsToken(w) then [w] else []) + Tokens(s[n..])
  }

  /** `_tokenize(text)`: `re.findall(r'\b[a-z]+\b', text.lower())`. */
  function Tokenize(text: string): (r: seq<string>)
    ensures forall t :: 0 <= t < |r| ==> IsToken(r[t])
  {
    Tokens(Lower(text))
  }

  /** The runs that are tokens, in order. */
  function TokensAmong(runs: seq<string>): (r: seq<string>)
    ensures forall t :: 0 <= t < |r| ==> IsToken(r[t])
    ensures forall w :: w in r <==> w in runs && IsToken(w)
  {
    if runs == [] then []
    else (if IsToken(runs[0]) then [runs[0]] else []) + TokensAmong(runs[1..])
  }

  /** `s` is cut into its maximal runs of word characters and the gaps
      between them, and its tokens are those runs that are all lower-case
      letters, in order. */
  lemma {:induction false} TokensLayout(s: string) returns (runs: seq<string>, gaps: seq<string>)
    ensures RunLayout(s, runs, gaps, WordChar) && Tokens(s) == TokensAmong(runs)
    decreases |s|
  {
    if s == [] {
      RunLayoutEmpty(WordChar);
      runs, gaps := [], [[]];
    } else if !WordChar(s[0]) {
      var r, g := TokensLayout(s[1..]);
      RunLayoutGap(s[0], s[1..], r, g, WordChar);
      assert [s[0]] + s[1..] == s;
      runs, gaps := r, [[s[0]] + g[0]] + g[1..];
    } else {
      var n := WordRun(s);
      var r, g := TokensLayout(s[n..]);
      RunLayoutRun(s[..n], s[n..], r, g, WordChar);
      assert s[..n] + s[n..] == s;
      runs, gaps := [s[..n]] + r, [[]] + g;
      assert runs[1..] == r;
    }
  }

  /** `_tokenize` keeps the all-letter runs of word characters of the
      lower-cased text. */
  lemma TokenizeLayout(text: string) returns (runs: seq<string>, gaps: seq<string>)
    ensures RunLayout(Lower(text), runs, gaps, WordChar) && Tokenize(text) == TokensAmong(runs)
  {
    runs, gaps := TokensLayout(Lower(text));
  }

  lemma WordRunToken(w: string, rest: string)
    requires IsToken(w) && (rest == [] || !WordChar(rest[0]))
    ensures WordRun(w + rest) == |w|
    decreases |w|
  {
    if |w| > 1 {
      assert (w + rest)[1..] == w[1..] + rest;
      WordRunToken(w[1..], rest);
    }
  }

  lemma TokensWord(w: string, rest: string)
    requires IsToken(w) && (rest == [] || !WordChar(rest[0]))
    ensures Tokens(w + rest) == [w] + Tokens(rest)
  {
    WordRunToken(w, rest);
    assert (w + rest)[..|w|] == w;
    assert (w + rest)[|w|..] == rest;
  }

  /** Tokens written out with single spaces are read back unchanged. */
  lemma {:induction false} TokensJoin(ws: seq<string>)
    requires forall t :: 0 <= t < |ws| ==> IsToken(ws[t])
    ensures Tokens(Join(" ", ws)) == ws
  {
    if |ws| == 1 {
      TokensWord(ws[0], []);
      assert ws[0] + [] == ws[0];
    } else if |ws| > 1 {
      var rest := Join(" ", ws[1..]);
      TokensJoin(ws[1..]);
      assert Join(" ", ws) == ws[0] + (" " + rest);
      TokensWord(ws[0], " " + rest);
      assert (" " + rest)[1..] == rest;
    }
  }

  lemma {:induction false} JoinTokensLower(ws: seq<string>)
    requires forall t :: 0 <= t < |ws| ==> IsToken(ws[t])
    ensures forall i :: 0 <= i < |Join(" ", ws)| ==> !IsUpper(Join(" ", ws)[i])
  {
    if |ws| > 1 {
      JoinTokensLower(ws[1..]);
      assert Join(" ", ws) == ws[0] + " " + Join(" ", ws[1..]);
    }
  }

  /** `_tokenize` reads back the tokens of any text once joined with spaces. */
  lemma TokenizeJoin(ws: seq<string>)
    requires forall t :: 0 <= t < |ws| ==> IsToken(ws[t])
    ensures Tokenize(Join(" ", ws)) == ws
  {
    JoinTokensLower(ws);
    assert Lower(Join(" ", ws)) == Join(" ", ws);
    TokensJoin(ws);
  }

  // ---------------------------------------------------------------------
  // _compute_tf
  // ---------------------------------------------------------------------

  function Count(s: seq<string>, x: string): nat {
    multiset(s)[x]
  }

  /** The term frequencies of `tokens`: each distinct token, in first-seen
      order, with its count divided by the number of tokens (`or 1`). */
  function Tf(tokens: seq<string>): (v: Vec)
    ensures v.Valid() && v.keys == Distinct(tokens)
    ensures forall k :: k in v.weight <==> k in tokens
  {
    var total := if |tokens| == 0 then 1 else |tokens|;
    Vec(Distinct(tokens), map k | k in tokens :: (Count(tokens, k) as real) / (total as real))
  }

  /** `defaultdict(int)` increment. */
  function Bump(counts: map<string, nat>, key: string): (r: map<string, nat>)
    ensures r.Keys == counts.Keys + {key}
    ensures r[key] == (if key in counts then counts[key] else 0) + 1
    ensures forall k :: k in counts && k != key ==> r[k] == counts[k]
  {
    counts[key := (if key in counts then counts[key] else 0) + 1]
  }

  /** `counts` holds the number of occurrences of every token of `done`. */
  ghost predicate CountsOf(done: seq<string>, counts: map<string, nat>) {
    (forall k :: k in counts <==> k in done)
    && (forall k :: k in counts ==> counts[k] == Count(done, k))
  }

  lemma CountsOfSnoc(done: seq<string>, token: string, counts: map<string, nat>)
    requires CountsOf(done, counts)
    ensures CountsOf(done + [token], Bump(counts, token))
  {
  }

  lemma CountsOfTf(tokens: seq<string>, counts: map<string, nat>, total: nat)
    requires CountsOf(tokens, counts) && total == if |tokens| == 0 then 1 else |tokens|
    ensures Tf(tokens).weight == map k | k in counts :: (counts[k] as real) / (total as real)
  {
  }

  /** `_compute_tf(tokens)`: count every token, then divide by the length. */
  method ComputeTf(tokens: seq<string>) returns (v: Vec)
    ensures v == Tf(tokens)
  {
    var counts: map<string, nat> := map[];
    var keys: seq<string> := [];
    for t := 0 to |tokens|
      invariant keys == Distinct(tokens[..t]) && CountsOf(tokens[..t], counts)
    {
      var token := tokens[t];
      PrefixSnoc(tokens, t);
      DistinctSnoc(tokens[..t], token);
      CountsOfSnoc(tokens[..t], token, counts);
      if token !in counts {
        keys := keys + [token];
      }
      counts := Bump(counts, token);
    }
    assert tokens[..|tokens|] == tokens;
    var total := if |tokens| == 0 then 1 else |tokens|;
    CountsOfTf(tokens, counts, total);
    v := Vec(keys, map k | k in counts :: (counts[k] as real) / (total as real));
  }

  /** The sum of the counts of distinct keys. */
  function CountSum(keys: seq<string>, tokens: seq<string>): nat {
    if keys == [] then 0 else CountSum(keys[..|keys| - 1], tokens) + Count(tokens, keys[|keys| - 1])
  }

  lemma {:induction false} CountSumSnoc(keys: seq<string>, tokens: seq<string>, x: string)
    requires NoDuplicates(keys)
    ensures CountSum(keys, tokens + [x]) == CountSum(keys, tokens) + (if x in keys then 1 else 0)
  {
    if keys != [] {
      var init := keys[..|keys| - 1];
      assert forall i, j :: 0 <= i < j < |init| ==> init[i] == keys[i] && init[j] == keys[j];
      CountSumSnoc(init, tokens, x);
      assert x in keys <==> x in init || x == keys[|keys| - 1];
      assert x == keys[|keys| - 1] ==> x !in init;
    }
  }

  lemma CountSumAppend(keys: seq<string>, tokens: seq<string>, x: string)
    ensures CountSum(keys + [x], tokens) == CountSum(keys, tokens) + Count(tokens, x)
  {
    assert (keys + [x])[..|keys|] == keys;
  }

  /** The counts of the distinct tokens add up to the number of tokens. */
  lemma {:induction false} CountsAddUp(tokens: seq<string>)
    ensures CountSum(Distinct(tokens), tokens) == |tokens|
  {
    if tokens != [] {
      var init := tokens[..|tokens| - 1];
      var x := tokens[|tokens| - 1];
      assert tokens == init + [x];
      CountsAddUp(init);
      DistinctSnoc(init, x);
      CountSumSnoc(Distinct(init), init, x);
      if x !in init {
        CountSumAppend(Distinct(init), tokens, x);
        assert Count(init, x) == 0;
      }
    }
  }

  /** The sum of the weights of `keys`. */
  function WeightSum(v: Vec, keys: seq<string>): real
    requires forall t :: 0 <= t < |keys| ==> keys[t] in v.weight
  {
    if keys == [] then 0.0 else WeightSum(v, keys[..|keys| - 1]) + v.weight[keys[|keys| - 1]]
  }

  lemma {:induction false} TfWeightSum(tokens: seq<string>, keys: seq<string>)
    requires tokens != [] && forall t :: 0 <= t < |keys| ==> keys[t] in tokens
    ensures WeightSum(Tf(tokens), keys) == (CountSum(keys, tokens) as real) / (|tokens| as real)
  {
    if keys != [] {
      var init := keys[..|keys| - 1];
      var k := keys[|keys| - 1];
      TfWeightSum(tokens, init);
      TfWeight(tokens, k);
      DivAdd(CountSum(init, tokens) as real, Count(tokens, k) as real, |tokens| as real);
    }
  }

  lemma DivAdd(a: real, c: real, l: real)
    requires l > 0.0
    ensures a / l + c / l == (a + c) / l
  {
  }

  /** The term frequencies of a non-empty token list add up to 1. */
  lemma TfSumsToOne(tokens: seq<string>)
    requires tokens != []
    ensures WeightSum(Tf(tokens), Tf(tokens).keys) == 1.0
  {
    var keys := Distinct(tokens);
    assert forall t :: 0 <= t < |keys| ==> keys[t] in keys;
    TfWeightSum(tokens, keys);
    CountsAddUp(tokens);
    SelfDiv(|tokens| as real);
  }

  lemma SelfDiv(l: real)
    requires l > 0.0
    ensures l / l == 1.0
  {
  }

  /** Every term frequency is the share of its token among all tokens. */
  lemma TfWeight(tokens: seq<string>, k: string)
    requires k in tokens
    ensures Tf(tokens).weight[k] == (Count(tokens, k) as real) / (|tokens| as real)
  {
  }

  /** Every term frequency is positive and at most 1. */
  lemma TfWeightBounds(tokens: seq<string>, k: string)
    requires k in tokens
    ensures 0.0 < Tf(tokens).weight[k] <= 1.0
  {
    TfWeight(tokens, k);
    var c := Count(tokens, k);
    assert 0 < c <= |tokens| by {
      assert multiset(tokens)[k] <= |multiset(tokens)|;
    }
    DivBounds(c as real, |tokens| as real);
  }

  lemma DivBounds(c: real, l: real)
    requires 0.0 < c <= l
    ensures 0.0 < c / l <= 1.0
  {
  }

  /** No tokens give an empty vector. */
  lemma TfEmpty()
    ensures Tf([]).keys == [] && Tf([]).weight == map[]
  {
  }

  // ---------------------------------------------------------------------
  // Document frequencies and inverse document frequencies
  // ---------------------------------------------------------------------

  /** The number of vectors that have `term` as a key. */
  function DocFreq(vecs: seq<Vec>, term: string): nat {
    if vecs == [] then 0
    else DocFreq(vecs[..|vecs| - 1], term) + (if term in vecs[|vecs| - 1].weight then 1 else 0)
  }

  /** `doc_freq` after the first `i` vectors and the first `p` keys of the next. */
  ghost predicate FreqsOf(vecs: seq<Vec>, i: nat, p: nat, df: map<string, nat>)
    requires i <= |vecs| && (i < |vecs| ==> p <= |vecs[i].keys|)
  {
    forall t ::
      var expected := DocFreq(vecs[..i], t) + (if i < |vecs| && t in vecs[i].keys[..p] then 1 else 0);
      (t in df <==> expected > 0) && (t in df ==> df[t] == expected)
  }

  lemma FreqsKey(vecs: seq<Vec>, i: nat, p: nat, df: map<string, nat>)
    requires i < |vecs| && p < |vecs[i].keys| && vecs[i].Valid() && FreqsOf(vecs, i, p, df)
    ensures FreqsOf(vecs, i, p + 1, Bump(df, vecs[i].keys[p]))
  {
    var keys := vecs[i].keys;
    assert keys[..p + 1] == keys[..p] + [keys[p]];
    assert keys[p] !in keys[..p];
  }

  lemma FreqsDoc(vecs: seq<Vec>, i: nat, df: map<string, nat>)
    requires i < |vecs| && vecs[i].Valid() && FreqsOf(vecs, i, |vecs[i].keys|, df)
    ensures FreqsOf(vecs, i + 1, 0, df)
  {
    assert vecs[..i + 1][..i] == vecs[..i];
    assert vecs[i].keys[..|vecs[i].keys|] == vecs[i].keys;
  }

  /** The counting loops of `_update_idf` and `compute_similarity_matrix`:
      for every term, the number of vectors that have it. */
  method DocFrequencies(vecs: seq<Vec>) returns (df: map<string, nat>)
    requires forall i :: 0 <= i < |vecs| ==> vecs[i].Valid()
    ensures df == DocFreqs(vecs)
  {
    df := map[];
    for i := 0 to |vecs|
      invariant FreqsOf(vecs, i, 0, df)
    {
      var keys := vecs[i].keys;
      for p := 0 to |keys|
        invariant FreqsOf(vecs, i, p, df)
      {
        FreqsKey(vecs, i, p, df);
        df := Bump(df, keys[p]);
      }
      FreqsDoc(vecs, i, df);
    }
    FreqsFinal(vecs, df);
  }

  lemma FreqsFinal(vecs: seq<Vec>, df: map<string, nat>)
    requires FreqsOf(vecs, |vecs|, 0, df)
    ensures df == DocFreqs(vecs)
  {
    assert vecs[..|vecs|] == vecs;
    var expected := DocFreqs(vecs);
    forall t
      ensures (t in df <==> t in expected) && (t in df ==> df[t] == expected[t])
    {
      DocFreqTerms(vecs, t);
    }
  }

  /** The terms of any of the vectors. */
  function Terms(vecs: seq<Vec>): set<string> {
    set i, t | 0 <= i < |vecs| && t in vecs[i].weight :: t
  }

  /** A term has a non-zero document frequency exactly when some vector has it. */
  lemma {:induction false} DocFreqTerms(vecs: seq<Vec>, t: string)
    ensures t in Terms(vecs) <==> DocFreq(vecs, t) > 0
  {
    if vecs != [] {
      var init := vecs[..|vecs| - 1];
      DocFreqTerms(init, t);
      if t in Terms(init) {
        var i :| 0 <= i < |init| && t in init[i].weight;
        assert t in vecs[i].weight;
      }
      if t in Terms(vecs) {
        var i :| 0 <= i < |vecs| && t in vecs[i].weight;
        if i < |init| {
          assert t in init[i].weight;
        }
      }
    }
  }

  /** `doc_freq` as a function of the vectors. */
  function DocFreqs(vecs: seq<Vec>): (df: map<string, nat>)
    ensures df.Keys == Terms(vecs)
  {
    map t | t in Terms(vecs) :: DocFreq(vecs, t)
  }

  /** A term is counted at most once per vector. */
  lemma {:induction false} DocFreqBound(vecs: seq<Vec>, term: string)
    ensures DocFreq(vecs, term) <= |vecs|
  {
    if vecs != [] {
      DocFreqBound(vecs[..|vecs| - 1], term);
    }
  }

  /** `{term: math.log(n / (df + 1)) + 1 for term, df in doc_freq.items()}` */
  function IdfOf(df: map<string, nat>, n: nat, ops: FloatOps): (idf: map<string, real>)
    ensures idf.Keys == df.Keys
  {
    map t | t in df :: ops.log((n as real) / ((df[t] + 1) as real)) + 1.0
  }

  /** `{term: freq * idf.get(term, 1.0) for term, freq in vec.items()}` */
  function Tfidf(v: Vec, idf: map<string, real>): (r: Vec)
    ensures r.keys == v.keys && r.weight.Keys == v.weight.Keys
    ensures v.Valid() ==> r.Valid()
  {
    Vec(v.keys, map k | k in v.weight :: v.weight[k] * (if k in idf then idf[k] else 1.0))
  }

  /** A term the idf table does not know keeps its term frequency. */
  lemma TfidfUnknown(v: Vec, idf: map<string, real>, k: string)
    requires k in v.weight && k !in idf
    ensures Tfidf(v, idf).weight[k] == v.weight[k]
  {
  }

  // ---------------------------------------------------------------------
  // _cosine_similarity
  // ---------------------------------------------------------------------

  /** The dot product over the keys of `v1`; the keys of `v2` alone add zero terms. */
  function Dot(v1: Vec, v2: Vec, keys: seq<string>): real {
    if keys == [] then 0.0
    else Dot(v1, v2, keys[..|keys| - 1]) + v1.Get(keys[|keys| - 1]) * v2.Get(keys[|keys| - 1])
  }

  function SumSquares(v: Vec, keys: seq<string>): real {
    if keys == [] then 0.0
    else SumSquares(v, keys[..|keys| - 1]) + v.Get(keys[|keys| - 1]) * v.Get(keys[|keys| - 1])
  }

  /** `_cosine_similarity(vec1, vec2)` */
  function Cosine(v1: Vec, v2: Vec, ops: FloatOps): (r: real)
    ensures v1.weight == map[] || v2.weight == map[] ==> r == 0.0
    ensures ops.sqrt(SumSquares(v1, v1.keys)) == 0.0 ==> r == 0.0
    ensures ops.sqrt(SumSquares(v2, v2.keys)) == 0.0 ==> r == 0.0
  {
    if v1.weight == map[] || v2.weight == map[] then 0.0
    else
      var dot := Dot(v1, v2, v1.keys);
      var mag1 := ops.sqrt(SumSquares(v1, v1.keys));
      var mag2 := ops.sqrt(SumSquares(v2, v2.keys));
      if mag1 == 0.0 || mag2 == 0.0 then 0.0 else dot / (mag1 * mag2)
  }

  /** A sum of squares is never negative. */
  lemma {:induction false} SumSquaresNonNegative(v: Vec, keys: seq<string>)
    ensures SumSquares(v, keys) >= 0.0
  {
    if keys != [] {
      SumSquaresNonNegative(v, keys[..|keys| - 1]);
      var x := v.Get(keys[|keys| - 1]);
      assert x * x >= 0.0;
    }
  }

  // ---------------------------------------------------------------------
  // compute_similarity_matrix
  // ---------------------------------------------------------------------

  /** The term-frequency vectors of a batch of texts. */
  function TfVectors(texts: seq<string>): (r: seq<Vec>)
    ensures |r| == |texts| && forall i :: 0 <= i < |r| ==> r[i].Valid()
  {
    seq(|texts|, i requires 0 <= i < |texts| => Tf(Tokenize(texts[i])))
  }

  /** The batch's TF-IDF vectors, weighted by the batch's own idf. */
  function BatchTfidf(texts: seq<string>, ops: FloatOps): (r: seq<Vec>)
    ensures |r| == |texts|
  {
    var idf := IdfOf(DocFreqs(TfVectors(texts)), |texts|, ops);
    seq(|texts|, i requires 0 <= i < |texts| => Tfidf(TfVectors(texts)[i], idf))
  }

  /** The matrix `compute_similarity_matrix` returns for the vectors `tv`:
      1.0 on the diagonal, the cosine of the lower and the higher position
      elsewhere. */
  function SimilarityOf(tv: seq<Vec>, ops: FloatOps): (m: seq<seq<real>>)
    ensures Square(m, |tv|)
  {
    seq(|tv|, i requires 0 <= i < |tv| =>
      seq(|tv|, j requires 0 <= j < |tv| =>
        if i == j then 1.0 else if i < j then Cosine(tv[i], tv[j], ops) else Cosine(tv[j], tv[i], ops)))
  }

  /** The similarity matrix has 1.0 on its diagonal and is symmetric. */
  lemma SimilarityShape(tv: seq<Vec>, ops: FloatOps)
    ensures forall i :: 0 <= i < |tv| ==> SimilarityOf(tv, ops)[i][i] == 1.0
    ensures forall i, j :: 0 <= i < |tv| && 0 <= j < |tv| ==>
              SimilarityOf(tv, ops)[i][j] == SimilarityOf(tv, ops)[j][i]
  {
  }

  /** `compute_similarity_matrix(reasoning_texts, ids)`: term frequencies,
      the batch's document frequencies and idf, TF-IDF vectors, then the
      upper triangle of cosines mirrored below the diagonal. */
  method ComputeSimilarityMatrix(texts: seq<string>, ops: FloatOps) returns (matrix: seq<seq<real>>)
    ensures matrix == SimilarityOf(BatchTfidf(texts, ops), ops)
  {
    var n := |texts|;
    var vectors: seq<Vec> := [];
    for i := 0 to n
      invariant vectors == TfVectors(texts)[..i]
    {
      var tokens := Tokenize(texts[i]);
      var tf := ComputeTf(tokens);
      vectors := vectors + [tf];
    }
    assert vectors == TfVectors(texts);
    var docFreq := DocFrequencies(vectors);
    var batchIdf := IdfOf(docFreq, n, ops);
    var tfidf := seq(n, i requires 0 <= i < n => Tfidf(vectors[i], batchIdf));
    assert tfidf == BatchTfidf(texts, ops);
    ghost var target := SimilarityOf(tfidf, ops);
    matrix := Zeros(n);
    for i := 0 to n
      invariant Square(matrix, n) && FilledAs(matrix, target, n, i, 0)
    {
      for j := 0 to n
        invariant Square(matrix, n) && FilledAs(matrix, target, n, i, j)
      {
        if i == j {
          FillDiagonal(matrix, target, n, i);
          matrix := Set2(matrix, i, j, 1.0);
        } else if j > i {
          var sim := Cosine(tfidf[i], tfidf[j], ops);
          FillCell(matrix, target, n, i, j);
          matrix := Set2(Set2(matrix, i, j, sim), j, i, sim);
        } else {
          FillSkip(matrix, target, n, i, j);
        }
      }
      FillRow(matrix, target, n, i);
    }
    FillDone(matrix, target, n);
  }

  // ---------------------------------------------------------------------
  // The store: add_reasoning, _update_idf, find_similar, get_clusters
  // ---------------------------------------------------------------------

  /** `self.metadata.get(doc_id, {})` */
  function MetaOf(metadata: map<string, map<string, Json>>, id: string): map<string, Json> {
    if id in metadata then metadata[id] else map[]
  }

  /** `metadata.get("task_id") == task_id` */
  predicate HasTask(md: map<string, Json>, taskId: string) {
    "task_id" in md && md["task_id"] == JStr(taskId)
  }

  /** `find_similar` passes over a document only when a non-empty task id is
      given and the document's metadata does not name that task. */
  predicate Kept(md: map<string, Json>, taskId: Option<string>) {
    taskId.None? || taskId.value == "" || HasTask(md, taskId.value)
  }

  /** The ids, in order, that `find_similar`'s task filter keeps. */
  function KeptIds(ids: seq<string>, metadata: map<string, map<string, Json>>, taskId: Option<string>): (r: seq<string>)
    ensures forall x :: x in r <==> x in ids && Kept(MetaOf(metadata, x), taskId)
  {
    if ids == [] then []
    else
      var last := ids[|ids| - 1];
      assert forall x :: x in ids <==> x in ids[..|ids| - 1] || x == last;
      KeptIds(ids[..|ids| - 1], metadata, taskId) + (if Kept(MetaOf(metadata, last), taskId) then [last] else [])
  }

  /** The ids, in order, of `get_clusters`'s `task_docs`. */
  function TaskIds(ids: seq<string>, metadata: map<string, map<string, Json>>, taskId: string): (r: seq<string>)
    ensures forall x :: x in r <==> x in ids && HasTask(MetaOf(metadata, x), taskId)
  {
    if ids == [] then []
    else
      var last := ids[|ids| - 1];
      assert forall x :: x in ids <==> x in ids[..|ids| - 1] || x == last;
      TaskIds(ids[..|ids| - 1], metadata, taskId) + (if HasTask(MetaOf(metadata, last), taskId) then [last] else [])
  }

  /** Selecting from distinct ids gives distinct ids. */
  lemma {:induction false} TaskIdsDistinct(ids: seq<string>, metadata: map<string, map<string, Json>>, taskId: string)
    requires NoDuplicates(ids)
    ensures NoDuplicates(TaskIds(ids, metadata, taskId))
  {
    if ids != [] {
      var init := ids[..|ids| - 1];
      assert forall i, j :: 0 <= i < j < |init| ==> init[i] == ids[i] && init[j] == ids[j];
      TaskIdsDistinct(init, metadata, taskId);
      assert ids[|ids| - 1] !in init;
    }
  }

  /** One entry of the list `find_similar` returns. */
  datatype Hit = Hit(id: string, text: string, metadata: map<string, Json>, distance: real, similarity: real)

  /** The cosine similarity of the query to every candidate, weighted by `idf`. */
  function Similarities(query: Vec, vectors: map<string, Vec>, cands: seq<string>, idf: map<string, real>, ops: FloatOps): (r: seq<real>)
    requires forall p :: 0 <= p < |cands| ==> cands[p] in vectors
    ensures |r| == |cands|
  {
    seq(|cands|, p requires 0 <= p < |cands| => Cosine(query, Tfidf(vectors[cands[p]], idf), ops))
  }

  /** The hits for the candidate positions `top`, in that order. */
  function HitsOf(cands: seq<string>, sims: seq<real>, top: seq<nat>,
                  documents: map<string, string>, metadata: map<string, map<string, Json>>): (r: seq<Hit>)
    requires |sims| == |cands| && Sorting.InRange(sims, top)
    requires forall p :: 0 <= p < |cands| ==> cands[p] in documents && cands[p] in metadata
    ensures |r| == |top|
  {
    seq(|top|, p requires 0 <= p < |top| =>
      var id := cands[top[p]];
      Hit(id, documents[id], metadata[id], 1.0 - sims[top[p]], sims[top[p]]))
  }

  /** The list `find_similar` returns: the hits for the first `n_results`
      candidates in order of decreasing similarity. */
  function Ranked(cands: seq<string>, sims: seq<real>, nResults: int,
                  documents: map<string, string>, metadata: map<string, map<string, Json>>): (r: seq<Hit>)
    requires |sims| == |cands|
    requires forall p :: 0 <= p < |cands| ==> cands[p] in documents && cands[p] in metadata
  {
    var order := Sorting.SortDesc(sims);
    var top := SliceTo(order, nResults);
    assert top == order[..|top|];
    HitsOf(cands, sims, top, documents, metadata)
  }

  /** What `similarities.sort(key=..., reverse=True)` followed by
      `similarities[:n_results]` keeps: at most `n_results` positions when
      that is not negative, all of them when it is at least their number,
      none twice, by decreasing similarity, and none left out that is more
      similar than one kept. */
  lemma TopSimilar(sims: seq<real>, nResults: int)
    ensures var top := SliceTo(Sorting.SortDesc(sims), nResults);
      Sorting.InRange(sims, top) && Sorting.SortedDesc(sims, top) && Sorting.Distinct(top)
      && (nResults >= 0 ==> |top| <= nResults)
      && (nResults >= |sims| ==> forall x :: 0 <= x < |sims| ==> x in top)
      && (forall x, p :: 0 <= x < |sims| && x !in top && 0 <= p < |top| ==> sims[top[p]] >= sims[x])
  {
    var order := Sorting.SortDesc(sims);
    var top := SliceTo(order, nResults);
    PrefixOfSorted(sims, order, |top|);
    if nResults >= |sims| {
      assert top == order;
    }
  }

  /** A prefix of a sorted order keeps the sort and beats what it leaves out. */
  lemma PrefixOfSorted(sims: seq<real>, order: seq<nat>, m: nat)
    requires m <= |order| && Sorting.InRange(sims, order) && Sorting.SortedDesc(sims, order) && Sorting.Distinct(order)
    requires forall x :: x in order <==> 0 <= x < |sims|
    ensures var top := order[..m];
      Sorting.InRange(sims, top) && Sorting.SortedDesc(sims, top) && Sorting.Distinct(top)
      && (forall x, p :: 0 <= x < |sims| && x !in top && 0 <= p < |top| ==> sims[top[p]] >= sims[x])
  {
    var top := order[..m];
    assert forall q :: 0 <= q < m ==> order[q] in top;
    forall x, p | 0 <= x < |sims| && x !in top && 0 <= p < |top| ensures sims[top[p]] >= sims[x] {
      assert x in order;
      var q :| 0 <= q < |order| && order[q] == x;
      assert top[p] == order[p];
    }
  }

  /** The list `find_similar` returns, sorted by decreasing similarity, keeps
      the most similar candidates, and reports `1 - similarity` as the distance. */
  lemma HitsRanked(cands: seq<string>, sims: seq<real>, nResults: int,
                   documents: map<string, string>, metadata: map<string, map<string, Json>>)
    requires |sims| == |cands|
    requires forall p :: 0 <= p < |cands| ==> cands[p] in documents && cands[p] in metadata
    ensures var top := SliceTo(Sorting.SortDesc(sims), nResults);
      var hits := Ranked(cands, sims, nResults, documents, metadata);
      (nResults >= 0 ==> |hits| <= nResults)
      && (forall p, q :: 0 <= p < q < |hits| ==> hits[p].similarity >= hits[q].similarity)
      && (forall p :: 0 <= p < |hits| ==>
            hits[p].id in cands && hits[p].text == documents[hits[p].id]
            && hits[p].metadata == metadata[hits[p].id] && hits[p].distance == 1.0 - hits[p].similarity)
      && (forall x, p :: 0 <= x < |sims| && x !in top && 0 <= p < |hits| ==> hits[p].similarity >= sims[x])
  {
    TopSimilar(sims, nResults);
  }

  /** `sim_matrix[i][j] >= threshold` for every cell. */
  function Links(m: seq<seq<real>>, n: nat, threshold: real): (link: seq<seq<bool>>)
    requires Square(m, n)
    ensures Square(link, n)
    ensures forall i, j :: 0 <= i < n && 0 <= j < n ==> link[i][j] == (m[i][j] >= threshold)
  {
    seq(n, i requires 0 <= i < n => seq(n, j requires 0 <= j < n => m[i][j] >= threshold))
  }

  /** `assignedIds` holds the ids of the positions grouped so far and of `cur`. */
  ghost predicate AssignedIds(docIds: seq<string>, assignedIds: set<string>, groups: seq<seq<nat>>, cur: seq<nat>) {
    forall x :: 0 <= x < |docIds| ==> (docIds[x] in assignedIds <==> InGroupBefore(groups, |groups|, x) || x in cur)
  }

  /** Every cluster lists the ids at the positions of its group. */
  ghost predicate ClustersOf(docIds: seq<string>, clusters: seq<seq<string>>, groups: seq<seq<nat>>) {
    |clusters| == |groups|
    && forall k :: 0 <= k < |groups| ==>
         |clusters[k]| == |groups[k]|
         && forall p :: 0 <= p < |groups[k]| ==> groups[k][p] < |docIds| && clusters[k][p] == docIds[groups[k][p]]
  }

  /** The three dicts have the same keys, listed once each in `ids`, and
      every addition is counted. */
  ghost predicate StoreValid(ids: seq<string>, documents: map<string, string>, metadata: map<string, map<string, Json>>,
                             vectors: map<string, Vec>, docCount: nat) {
    NoDuplicates(ids) && |ids| <= docCount
    && (forall id :: id in documents <==> id in ids)
    && (forall id :: id in metadata <==> id in ids)
    && (forall id :: id in vectors <==> id in ids)
    && (forall id :: id in vectors ==> vectors[id].Valid())
  }

  /** `add_reasoning` keeps the store's invariant. */
  lemma StoreValidAdd(ids: seq<string>, documents: map<string, string>, metadata: map<string, map<string, Json>>,
                      vectors: map<string, Vec>, docCount: nat, id: string, text: string, md: map<string, Json>, v: Vec)
    requires StoreValid(ids, documents, metadata, vectors, docCount) && v.Valid()
    ensures StoreValid(if id in ids then ids else ids + [id], documents[id := text], metadata[id := md],
                       vectors[id := v], docCount + 1)
  {
  }

  /** `VectorStore`: the documents, metadata and term-frequency vectors by
      id, the idf table of the last recomputation and the number of
      additions. */
  class VectorStore {
    var documents: map<string, string>
    var metadata: map<string, map<string, Json>>
    var vectors: map<string, Vec>
    var idf: map<string, real>
    var docCount: nat
    /** The ids in insertion order, which is the order of all three dicts. */
    var ids: seq<string>
    const ops: FloatOps

    ghost predicate Valid()
      reads this
    {
      StoreValid(ids, documents, metadata, vectors, docCount)
    }

    constructor(ops: FloatOps)
      ensures Valid() && this.ops == ops
      ensures documents == map[] && metadata == map[] && vectors == map[] && idf == map[]
      ensures docCount == 0 && ids == []
    {
      documents := map[];
      metadata := map[];
      vectors := map[];
      idf := map[];
      docCount := 0;
      ids := [];
      this.ops := ops;
    }

    /** The table `_update_idf` computes from the stored vectors, with
        `n = len(self.documents) or 1`. */
    function CurrentIdf(): map<string, real>
      reads this
      requires Valid()
    {
      IdfOf(DocFreqs(Lookup(vectors, ids)), if |documents| == 0 then 1 else |documents|, ops)
    }

    /** `_update_idf()` */
    method UpdateIdf()
      requires Valid()
      modifies this`idf
      ensures Valid() && idf == CurrentIdf()
    {
      var docFreq := DocFrequencies(Lookup(vectors, ids));
      var n := if |documents| == 0 then 1 else |documents|;
      idf := IdfOf(docFreq, n, ops);
    }

    /** `add_reasoning(id, text, metadata)`: stores the text, the metadata
        (`{}` when absent) and the term frequencies, counts the addition and
        recomputes the idf table on every fifth addition. */
    method AddReasoning(id: string, text: string, meta: Option<map<string, Json>>)
      requires Valid()
      modifies this
      ensures Valid()
      ensures documents == old(documents)[id := text]
      ensures metadata == old(metadata)[id := meta.GetOr(map[])]
      ensures vectors == old(vectors)[id := Tf(Tokenize(text))]
      ensures ids == if id in old(ids) then old(ids) else old(ids) + [id]
      ensures docCount == old(docCount) + 1
      ensures idf == if docCount % 5 == 0 then CurrentIdf() else old(idf)
    {
      var tokens := Tokenize(text);
      var tf := ComputeTf(tokens);
      Put(id, text, meta.GetOr(map[]), tf);
      ghost var stored := (documents, metadata, vectors, ids, docCount);
      if docCount % 5 == 0 {
        UpdateIdf();
      }
      assert (documents, metadata, vectors, ids, docCount) == stored;
    }

    /** The three dict assignments and the count of `add_reasoning`. */
    method Put(id: string, text: string, md: map<string, Json>, tf: Vec)
      requires Valid() && tf.Valid()
      modifies this`documents, this`metadata, this`vectors, this`ids, this`docCount
      ensures Valid()
      ensures documents == old(documents)[id := text]
      ensures metadata == old(metadata)[id := md]
      ensures vectors == old(vectors)[id := tf]
      ensures ids == if id in old(ids) then old(ids) else old(ids) + [id]
      ensures docCount == old(docCount) + 1
    {
      StoreValidAdd(ids, documents, metadata, vectors, docCount, id, text, md, tf);
      documents := documents[id := text];
      metadata := metadata[id := md];
      vectors := vectors[id := tf];
      if id !in ids {
        ids := ids + [id];
      }
      docCount := docCount + 1;
    }

    /** `find_similar(text, n_results, task_id)`: refreshes the idf table,
        weighs the query and every kept document by it, and returns the
        `n_results` most similar documents. */
    method FindSimilar(text: string, nResults: int, taskId: Option<string>) returns (hits: seq<Hit>)
      requires Valid()
      modifies this`idf
      ensures Valid() && idf == CurrentIdf()
      ensures var cands := KeptIds(ids, metadata, taskId);
        var sims := Similarities(Tfidf(Tf(Tokenize(text)), idf), vectors, cands, idf, ops);
        hits == Ranked(cands, sims, nResults, documents, metadata)
    {
      UpdateIdf();
      var tokens := Tokenize(text);
      var tf := ComputeTf(tokens);
      var query := Tfidf(tf, idf);
      assert forall q :: 0 <= q < |ids| ==> ids[q] in documents && ids[q] in metadata && ids[q] in vectors by {
        assert forall q :: 0 <= q < |ids| ==> ids[q] in ids;
      }
      var cands, sims := ScoreDocuments(ids, documents, metadata, vectors, idf, query, taskId, ops);
      hits := RankHits(cands, sims, nResults, documents, metadata);
    }

    /** `get_clusters(task_id, threshold)`: that task's documents in insertion
        order, their batch similarity matrix, and the seed-based grouping of
        the positions whose similarity reaches `threshold`. */
    method GetClusters(taskId: string, threshold: real) returns (clusters: seq<seq<string>>, ghost groups: seq<seq<nat>>)
      requires Valid()
      ensures var docIds := TaskIds(ids, metadata, taskId);
        (forall t :: 0 <= t < |docIds| ==> docIds[t] in documents)
        && var sim := SimilarityOf(BatchTfidf(Lookup(documents, docIds), ops), ops);
        SeedGrouping(Links(sim, |docIds|, threshold), |docIds|, groups) && ClustersOf(docIds, clusters, groups)
    {
      var docIds := TaskIds(ids, metadata, taskId);
      assert forall t :: 0 <= t < |docIds| ==> docIds[t] in documents by {
        assert forall t :: 0 <= t < |docIds| ==> docIds[t] in docIds;
      }
      if docIds == [] {
        clusters := [];
        groups := [];
        SeedEmpty(Links(Zeros(0), 0, threshold), 0);
        return;
      }
      var texts := Lookup(documents, docIds);
      var sim := ComputeSimilarityMatrix(texts, ops);
      TaskIdsDistinct(ids, metadata, taskId);
      clusters, groups := SeedClusters(docIds, sim, threshold);
    }
  }

  /** The loop of `find_similar` over the stored vectors: the kept ids and
      their similarity to the query. */
  method ScoreDocuments(ids: seq<string>, documents: map<string, string>, metadata: map<string, map<string, Json>>,
                        vectors: map<string, Vec>, idf: map<string, real>, query: Vec, taskId: Option<string>, ops: FloatOps)
    returns (cands: seq<string>, sims: seq<real>)
    requires forall q :: 0 <= q < |ids| ==> ids[q] in documents && ids[q] in metadata && ids[q] in vectors
    ensures cands == KeptIds(ids, metadata, taskId)
    ensures forall q :: 0 <= q < |cands| ==> cands[q] in documents && cands[q] in metadata && cands[q] in vectors
    ensures sims == Similarities(query, vectors, cands, idf, ops)
  {
    cands := [];
    sims := [];
    for p := 0 to |ids|
      invariant cands == KeptIds(ids[..p], metadata, taskId)
      invariant forall q :: 0 <= q < |cands| ==> cands[q] in documents && cands[q] in metadata && cands[q] in vectors
      invariant sims == Similarities(query, vectors, cands, idf, ops)
    {
      var docId := ids[p];
      assert ids[..p + 1][..p] == ids[..p];
      if Kept(MetaOf(metadata, docId), taskId) {
        var docTfidf := Tfidf(vectors[docId], idf);
        var sim := Cosine(query, docTfidf, ops);
        SimilaritiesSnoc(query, vectors, cands, docId, idf, ops);
        cands := cands + [docId];
        sims := sims + [sim];
      }
    }
    assert ids[..|ids|] == ids;
  }

  lemma SimilaritiesSnoc(query: Vec, vectors: map<string, Vec>, cands: seq<string>, id: string,
                         idf: map<string, real>, ops: FloatOps)
    requires forall p :: 0 <= p < |cands| ==> cands[p] in vectors
    requires id in vectors
    ensures Similarities(query, vectors, cands + [id], idf, ops)
         == Similarities(query, vectors, cands, idf, ops) + [Cosine(query, Tfidf(vectors[id], idf), ops)]
  {
  }

  /** The sort and the slice of `find_similar` and the list it builds. */
  method RankHits(cands: seq<string>, sims: seq<real>, nResults: int,
                  documents: map<string, string>, metadata: map<string, map<string, Json>>)
    returns (hits: seq<Hit>)
    requires |sims| == |cands|
    requires forall p :: 0 <= p < |cands| ==> cands[p] in documents && cands[p] in metadata
    ensures hits == Ranked(cands, sims, nResults, documents, metadata)
  {
    var order := Sorting.SortDesc(sims);
    var top := SliceTo(order, nResults);
    assert Sorting.InRange(sims, top) by {
      assert top == order[..|top|];
    }
    hits := [];
    for p := 0 to |top|
      invariant hits == HitsOf(cands, sims, top[..p], documents, metadata)
    {
      var docId := cands[top[p]];
      hits := hits + [Hit(docId, documents[docId], metadata[docId], 1.0 - sims[top[p]], sims[top[p]])];
    }
    assert top[..|top|] == top;
  }

  /** The clustering loop of `get_clusters`: every id not yet assigned
      starts a cluster, which takes every unassigned id whose similarity to
      it reaches the threshold. */
  method SeedClusters(docIds: seq<string>, sim: seq<seq<real>>, threshold: real)
    returns (clusters: seq<seq<string>>, ghost groups: seq<seq<nat>>)
    requires NoDuplicates(docIds) && Square(sim, |docIds|)
    ensures SeedGrouping(Links(sim, |docIds|, threshold), |docIds|, groups)
    ensures ClustersOf(docIds, clusters, groups)
  {
    var n := |docIds|;
    ghost var link := Links(sim, n, threshold);
    clusters := [];
    groups := [];
    var assignedIds: set<string> := {};
    SeedEmpty(link, n);
    for i := 0 to n
      invariant SeedPrefix(link, n, groups, i)
      invariant ClustersOf(docIds, clusters, groups)
      invariant AssignedIds(docIds, assignedIds, groups, [])
    {
      if docIds[i] in assignedIds {
        SeedPass(link, n, groups, i);
      } else {
        var cluster;
        ghost var cur;
        cluster, cur, assignedIds := GrowCluster(docIds, sim, threshold, link, groups, i, assignedIds);
        SeedClose(link, n, groups, i, cur);
        AssignedClose(docIds, assignedIds, groups, cur);
        ClustersSnoc(docIds, clusters, groups, cluster, cur);
        groups := groups + [cur];
        clusters := clusters + [cluster];
      }
    }
    SeedFinish(link, n, groups);
  }

  /** The inner loop of `get_clusters`: the seed `i` takes, in order, every
      unassigned id whose similarity to it reaches the threshold. */
  method GrowCluster(docIds: seq<string>, sim: seq<seq<real>>, threshold: real, ghost link: seq<seq<bool>>,
                     ghost groups: seq<seq<nat>>, i: nat, assignedIds0: set<string>)
    returns (cluster: seq<string>, ghost cur: seq<nat>, assignedIds: set<string>)
    requires NoDuplicates(docIds) && Square(sim, |docIds|) && link == Links(sim, |docIds|, threshold)
    requires i < |docIds| && SeedPrefix(link, |docIds|, groups, i) && docIds[i] !in assignedIds0
    requires AssignedIds(docIds, assignedIds0, groups, [])
    ensures SeedRow(link, |docIds|, groups, i, cur, |docIds|)
    ensures |cluster| == |cur| && forall p :: 0 <= p < |cur| ==> cluster[p] == docIds[cur[p]]
    ensures AssignedIds(docIds, assignedIds, groups, cur)
  {
    var n := |docIds|;
    cluster := [docIds[i]];
    cur := [i];
    AssignedAdd(docIds, assignedIds0, groups, [], i);
    assignedIds := assignedIds0 + {docIds[i]};
    SeedStart(link, n, groups, i, 0);
    for j := 0 to n
      invariant SeedRow(link, n, groups, i, cur, j)
      invariant |cluster| == |cur| && forall p :: 0 <= p < |cur| ==> cluster[p] == docIds[cur[p]]
      invariant AssignedIds(docIds, assignedIds, groups, cur)
    {
      if docIds[j] !in assignedIds && sim[i][j] >= threshold {
        RowFree(link, n, groups, i, cur, j);
        SeedTake(link, n, groups, i, cur, j);
        AssignedAdd(docIds, assignedIds, groups, cur, j);
        cluster := cluster + [docIds[j]];
        cur := cur + [j];
        assignedIds := assignedIds + {docIds[j]};
      } else {
        if docIds[j] in assignedIds && j in cur {
          RowMember(link, n, groups, i, cur, j);
        }
        SeedSkip(link, n, groups, i, cur, j);
      }
    }
  }

  /** The only position of the row's group at or after `j` is the seed. */
  lemma RowMember(link: seq<seq<bool>>, n: nat, groups: seq<seq<nat>>, i: nat, cur: seq<nat>, j: nat)
    requires Square(link, n) && SeedRow(link, n, groups, i, cur, j) && j in cur
    ensures j == i
  {
    var p :| 0 <= p < |cur| && cur[p] == j;
  }

  /** A position that is neither grouped nor in the row comes after the seed. */
  lemma RowFree(link: seq<seq<bool>>, n: nat, groups: seq<seq<nat>>, i: nat, cur: seq<nat>, j: nat)
    requires Square(link, n) && SeedRow(link, n, groups, i, cur, j) && j < n
    requires !InGroupBefore(groups, |groups|, j) && j !in cur
    ensures i < j
  {
    assert cur[0] == i;
  }

  lemma AssignedAdd(docIds: seq<string>, assignedIds: set<string>, groups: seq<seq<nat>>, cur: seq<nat>, j: nat)
    requires NoDuplicates(docIds) && j < |docIds| && AssignedIds(docIds, assignedIds, groups, cur)
    ensures AssignedIds(docIds, assignedIds + {docIds[j]}, groups, cur + [j])
  {
  }

  lemma AssignedClose(docIds: seq<string>, assignedIds: set<string>, groups: seq<seq<nat>>, cur: seq<nat>)
    requires AssignedIds(docIds, assignedIds, groups, cur)
    ensures AssignedIds(docIds, assignedIds, groups + [cur], [])
  {
    forall x | 0 <= x < |docIds| ensures InGroupBefore(groups + [cur], |groups| + 1, x) == (InGroupBefore(groups, |groups|, x) || x in cur) {
      InGroupBeforeSnoc(groups, cur, |groups|, x);
    }
  }

  lemma ClustersSnoc(docIds: seq<string>, clusters: seq<seq<string>>, groups: seq<seq<nat>>, cluster: seq<string>, cur: seq<nat>)
    requires ClustersOf(docIds, clusters, groups)
    requires |cluster| == |cur| && forall p :: 0 <= p < |cur| ==> cur[p] < |docIds| && cluster[p] == docIds[cur[p]]
    ensures ClustersOf(docIds, clusters + [cluster], groups + [cur])
  {
  }

  /** Over distinct ids a partition of the positions puts every id in
      exactly one cluster, and nothing else in any. */
  lemma ClustersPartitionIds(docIds: seq<string>, clusters: seq<seq<string>>, groups: seq<seq<nat>>)
    requires NoDuplicates(docIds) && IsPartition(groups, |docIds|) && ClustersOf(docIds, clusters, groups)
    ensures forall k :: 0 <= k < |clusters| ==> clusters[k] != []
    ensures forall k, id :: 0 <= k < |clusters| && id in clusters[k] ==> id in docIds
    ensures forall x :: 0 <= x < |docIds| ==> exists k :: 0 <= k < |clusters| && docIds[x] in clusters[k]
    ensures forall k1, k2, id :: 0 <= k1 < k2 < |clusters| && id in clusters[k1] ==> id !in clusters[k2]
  {
    forall k, id | 0 <= k < |clusters| && id in clusters[k] ensures id in docIds {
      var p :| 0 <= p < |clusters[k]| && clusters[k][p] == id;
      assert docIds[groups[k][p]] == id;
    }
    forall x | 0 <= x < |docIds| ensures exists k :: 0 <= k < |clusters| && docIds[x] in clusters[k] {
      var k := ClusterOfId(docIds, clusters, groups, x);
      assert 0 <= k < |clusters| && docIds[x] in clusters[k];
    }
    forall k1, k2, id | 0 <= k1 < k2 < |clusters| && id in clusters[k1] ensures id !in clusters[k2] {
      ClustersDisjoint(docIds, clusters, groups, k1, k2, id);
    }
  }

  lemma ClusterOfId(docIds: seq<string>, clusters: seq<seq<string>>, groups: seq<seq<nat>>, x: nat) returns (k: nat)
    requires IsPartition(groups, |docIds|) && ClustersOf(docIds, clusters, groups) && x < |docIds|
    ensures k < |clusters| && docIds[x] in clusters[k]
  {
    assert InGroupBefore(groups, |groups|, x);
    k :| 0 <= k < |groups| && x in groups[k];
    var p :| 0 <= p < |groups[k]| && groups[k][p] == x;
    assert clusters[k][p] == docIds[x];
  }

  lemma ClustersDisjoint(docIds: seq<string>, clusters: seq<seq<string>>, groups: seq<seq<nat>>, k1: nat, k2: nat, id: string)
    requires NoDuplicates(docIds) && IsPartition(groups, |docIds|) && ClustersOf(docIds, clusters, groups)
    requires k1 < k2 < |clusters| && id in clusters[k1]
    ensures id !in clusters[k2]
  {
    var p :| 0 <= p < |clusters[k1]| && clusters[k1][p] == id;
    var x := groups[k1][p];
    assert x in groups[k1];
    forall q | 0 <= q < |clusters[k2]| ensures clusters[k2][q] != id {
      var y := groups[k2][q];
      assert y in groups[k2];
      if x != y {
        assert docIds[x] != docIds[y];
      }
    }
  }
}
