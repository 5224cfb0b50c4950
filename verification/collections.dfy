/** Sequence helpers shared by the modules: Python slicing, flattening,
    de-duplication in first-seen order and counting. */
module Collections {

  /** `s[:n]` with Python's meaning for a negative `n` (drop the last `-n`). */
  function SliceTo<T>(s: seq<T>, n: int): (r: seq<T>)
    ensures n >= 0 ==> r == s[..if n < |s| then n else |s|]
    ensures n < 0 ==> r == s[..if |s| + n > 0 then |s| + n else 0]
  {
    if n >= 0 then s[..if n < |s| then n else |s|]
    else s[..if |s| + n > 0 then |s| + n else 0]
  }

  /** `s[:n]` for a non-negative `n`: the first `min(n, len(s))` elements. */
  function Take<T>(s: seq<T>, n: nat): (r: seq<T>)
    ensures |r| <= n && |r| <= |s|
    ensures |r| == (if n < |s| then n else |s|)
    ensures r == s[..|r|]
  {
    if n < |s| then s[..n] else s
  }

  /** The concatenation of a list of lists (`for x in xs: out.extend(x)`). */
  function Flatten<T>(xs: seq<seq<T>>): (r: seq<T>)
  {
    if xs == [] then [] else Flatten(xs[..|xs| - 1]) + xs[|xs| - 1]
  }

  lemma FlattenAppend<T>(xs: seq<seq<T>>, x: seq<T>)
    ensures Flatten(xs + [x]) == Flatten(xs) + x
  {
    assert (xs + [x])[..|xs|] == xs;
  }

  /** Every element of a flattened list comes from one of the lists, and back. */
  lemma {:induction false} FlattenMembership<T>(xs: seq<seq<T>>, v: T)
    ensures v in Flatten(xs) <==> exists k :: 0 <= k < |xs| && v in xs[k]
  {
    if xs != [] {
      var init := xs[..|xs| - 1];
      FlattenMembership(init, v);
      assert forall k :: 0 <= k < |init| ==> init[k] == xs[k];
    }
  }

  lemma {:induction false} FlattenLength<T>(xs: seq<seq<T>>, lens: seq<nat>)
    requires |lens| == |xs| && forall k :: 0 <= k < |xs| ==> |xs[k]| == lens[k]
    ensures |Flatten(xs)| == Sum(lens)
  {
    if xs != [] {
      FlattenLength(xs[..|xs| - 1], lens[..|lens| - 1]);
    }
  }

  /** `r` is `s[idx[0]], s[idx[1]], …` with the positions `idx` strictly
      increasing: a selection of `s` that keeps its order. */
  ghost predicate PicksInOrder<T>(s: seq<T>, idx: seq<nat>, r: seq<T>) {
    |idx| == |r|
    && (forall k :: 0 <= k < |idx| ==> idx[k] < |s| && r[k] == s[idx[k]])
    && (forall k, l :: 0 <= k < l < |idx| ==> idx[k] < idx[l])
  }

  /** Appending an element, and keeping it or not, extends a selection. */
  lemma PicksSnoc<T>(s: seq<T>, idx: seq<nat>, r: seq<T>, x: T, keep: bool)
    requires PicksInOrder(s, idx, r)
    ensures PicksInOrder(s + [x], idx + (if keep then [|s|] else []), r + (if keep then [x] else []))
  {
    var idx' := idx + (if keep then [|s|] else []);
    var r' := r + (if keep then [x] else []);
    forall k | 0 <= k < |idx'| ensures idx'[k] < |s + [x]| && r'[k] == (s + [x])[idx'[k]] {
      if k < |idx| {
        assert idx'[k] == idx[k] && r'[k] == r[k];
      }
    }
  }

  /** `[xs[i] for i in positions]` */
  function Pick<T>(xs: seq<T>, positions: seq<nat>): (r: seq<T>)
    requires forall t :: 0 <= t < |positions| ==> positions[t] < |xs|
    ensures |r| == |positions|
    ensures forall t :: 0 <= t < |r| ==> r[t] == xs[positions[t]]
  {
    seq(|positions|, t requires 0 <= t < |positions| => xs[positions[t]])
  }

  /** When `positions` lists every position of `xs`, an element missing from
      the first `n` picks is picked at some later place. */
  lemma PickedLater<T>(xs: seq<T>, positions: seq<nat>, n: nat, k: T) returns (q: nat)
    requires forall t :: 0 <= t < |positions| ==> positions[t] < |xs|
    requires forall x :: x in positions <==> 0 <= x < |xs|
    requires n <= |positions| && k in xs && k !in Pick(xs, positions)[..n]
    ensures n <= q < |positions| && xs[positions[q]] == k
  {
    var p :| 0 <= p < |xs| && xs[p] == k;
    assert p in positions;
    q :| 0 <= q < |positions| && positions[q] == p;
    var picked := Pick(xs, positions)[..n];
    assert forall t :: 0 <= t < n ==> picked[t] != k;
  }

  function Reverse<T>(s: seq<T>): (r: seq<T>)
    ensures |r| == |s| && forall i :: 0 <= i < |s| ==> r[i] == s[|s| - 1 - i]
  {
    seq(|s|, i requires 0 <= i < |s| => s[|s| - 1 - i])
  }

  /** `[m[k] for k in keys]` */
  function Lookup<K, V>(m: map<K, V>, keys: seq<K>): (r: seq<V>)
    requires forall t :: 0 <= t < |keys| ==> keys[t] in m
    ensures |r| == |keys|
    ensures forall t :: 0 <= t < |r| ==> r[t] == m[keys[t]]
  {
    seq(|keys|, t requires 0 <= t < |keys| => m[keys[t]])
  }

  function Sum(ns: seq<nat>): nat
  {
    if ns == [] then 0 else Sum(ns[..|ns| - 1]) + ns[|ns| - 1]
  }

  lemma SumAppend(ns: seq<nat>, n: nat)
    ensures Sum(ns + [n]) == Sum(ns) + n
  {
    assert (ns + [n])[..|ns|] == ns;
  }

  predicate NoDuplicates<T(==)>(s: seq<T>) {
    forall i, j :: 0 <= i < j < |s| ==> s[i] != s[j]
  }

  /** The distinct elements of `s` in order of first occurrence, which is the
      key order of a `dict` or `Counter` filled from `s`. */
  function Distinct<T(==,!new)>(s: seq<T>): (r: seq<T>)
    ensures NoDuplicates(r)
    ensures forall x :: x in r <==> x in s
    ensures |r| <= |s|
  {
    if s == [] then []
    else
      var d := Distinct(s[..|s| - 1]);
      assert forall x :: x in s <==> x in s[..|s| - 1] || x == s[|s| - 1];
      if s[|s| - 1] in d then d else d + [s[|s| - 1]]
  }

  /** A sequence is its first `i` elements followed by the rest. */
  lemma PrefixRest<T>(s: seq<T>, i: nat)
    requires i <= |s|
    ensures s[..i] + s[i..] == s
  {
  }

  lemma PrefixSnoc<T>(s: seq<T>, i: nat)
    requires i < |s|
    ensures s[..i + 1] == s[..i] + [s[i]]
  {
  }

  lemma DistinctSnoc<T(!new)>(s: seq<T>, x: T)
    ensures Distinct(s + [x]) == if x in s then Distinct(s) else Distinct(s) + [x]
  {
    assert (s + [x])[..|s|] == s;
  }

  /** The first occurrence of `x` in `s` comes before that of `y` exactly when
      `x` precedes `y` in `Distinct(s)`. */
  function FirstIndex<T(==)>(s: seq<T>, x: T): (i: nat)
    requires x in s
    ensures i < |s| && s[i] == x && x !in s[..i]
  {
    if s[0] == x then 0
    else
      var i := 1 + FirstIndex(s[1..], x);
      assert s[..i] == [s[0]] + s[1..][..i - 1];
      i
  }

  lemma {:induction false} DistinctOrder<T(!new)>(s: seq<T>, p: nat, q: nat)
    requires p < q < |Distinct(s)|
    ensures FirstIndex(s, Distinct(s)[p]) < FirstIndex(s, Distinct(s)[q])
  {
    var init := s[..|s| - 1];
    var d := Distinct(init);
    var last := s[|s| - 1];
    assert forall x :: x in init ==> FirstIndex(s, x) == FirstIndex(init, x) by {
      forall x | x in init ensures FirstIndex(s, x) == FirstIndex(init, x) {
        FirstIndexPrefix(s, init, x);
      }
    }
    if q < |d| {
      DistinctOrder(init, p, q);
    } else {
      assert Distinct(s)[q] == last && last !in init;
      assert Distinct(s)[p] == d[p] && d[p] in init;
      assert FirstIndex(s, last) == |s| - 1 by {
        assert forall k :: 0 <= k < |init| ==> init[k] != last;
      }
    }
  }

  lemma FirstIndexPrefix<T>(s: seq<T>, init: seq<T>, x: T)
    requires |init| <= |s| && init == s[..|init|] && x in init
    ensures FirstIndex(s, x) == FirstIndex(init, x)
  {
    var i, j := FirstIndex(s, x), FirstIndex(init, x);
    assert forall k :: 0 <= k < i ==> s[..i][k] == s[k];
    assert forall k :: 0 <= k < j ==> init[..j][k] == s[k];
  }

  function SetOf<T(==)>(s: seq<T>): set<T> {
    set x | x in s
  }

  /** `len(set(s)) <= len(s)` */
  lemma {:induction false} SetOfSize<T>(s: seq<T>)
    ensures |SetOf(s)| <= |s|
    ensures s != [] ==> |SetOf(s)| >= 1
  {
    if s != [] {
      var init, last := s[..|s| - 1], s[|s| - 1];
      SetOfSize(init);
      SetOfSnoc(s);
      assert |SetOf(init) + {last}| <= |SetOf(init)| + 1;
      assert last in SetOf(s);
    }
  }

  /** The elements of a non-empty sequence: those before its last, and the last. */
  lemma SetOfSnoc<T>(s: seq<T>)
    requires s != []
    ensures SetOf(s) == SetOf(s[..|s| - 1]) + {s[|s| - 1]}
  {
    var init := s[..|s| - 1];
    assert s == init + [s[|s| - 1]];
    forall x ensures x in SetOf(s) <==> x in SetOf(init) + {s[|s| - 1]} {
      assert x in s <==> x in init || x == s[|s| - 1];
    }
  }
}
