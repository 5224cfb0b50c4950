/** Partitions of the positions `0 .. n - 1` into families, as the three
    clustering loops of the system produce them: every position in exactly
    one group, each group listed in increasing position order. */
module Groups {
  import opened Collections

  predicate Increasing(g: seq<nat>) {
    forall p, q :: 0 <= p < q < |g| ==> g[p] < g[q]
  }

  /** Position `x` belongs to one of the first `k` groups. */
  ghost predicate InGroupBefore(groups: seq<seq<nat>>, k: nat, x: nat)
    requires k <= |groups|
  {
    exists k' :: 0 <= k' < k && x in groups[k']
  }

  /** `groups` splits `0 .. n - 1` into non-empty increasing lists, each
      position in exactly one of them. */
  ghost predicate IsPartition(groups: seq<seq<nat>>, n: nat) {
    (forall k :: 0 <= k < |groups| ==> groups[k] != [] && Increasing(groups[k]))
    && (forall k, p :: 0 <= k < |groups| && 0 <= p < |groups[k]| ==> groups[k][p] < n)
    && (forall x :: 0 <= x < n ==> InGroupBefore(groups, |groups|, x))
    && (forall k1, k2, x :: 0 <= k1 < k2 < |groups| && x in groups[k1] ==> x !in groups[k2])
  }

  /** Groups are listed in order of their smallest member. */
  ghost predicate OrderedByFirst(groups: seq<seq<nat>>)
    requires forall k :: 0 <= k < |groups| ==> groups[k] != []
  {
    forall k1, k2 :: 0 <= k1 < k2 < |groups| ==> groups[k1][0] < groups[k2][0]
  }

  /** An `n` by `n` matrix. */
  predicate Square<T>(m: seq<seq<T>>, n: nat) {
    |m| == n && forall i :: 0 <= i < n ==> |m[i]| == n
  }

  /** `[[0.0] * n for _ in range(n)]` */
  function Zeros(n: nat): (m: seq<seq<real>>)
    ensures Square(m, n)
  {
    seq(n, i => seq(n, j => 0.0))
  }

  /** `matrix[i][j] = v` */
  function Set2(m: seq<seq<real>>, i: nat, j: nat, v: real): (r: seq<seq<real>>)
    requires i < |m| && j < |m[i]|
    ensures |r| == |m| && forall p :: 0 <= p < |m| ==> |r[p]| == |m[p]|
    ensures r[i][j] == v
    ensures forall p, q :: 0 <= p < |m| && 0 <= q < |m[p]| && (p != i || q != j) ==> r[p][q] == m[p][q]
  {
    m[i := m[i][j := v]]
  }

  /** The cells a symmetric fill loop has written before row `i`, column
      `j`: the loop writes cell `(p, q)` and its mirror `(q, p)` together. */
  predicate Filled(i: nat, j: nat, p: nat, q: nat) {
    (if p < q then p else q) < i || ((if p < q then p else q) == i && (if p < q then q else p) < j)
  }

  ghost predicate FilledAs(m: seq<seq<real>>, target: seq<seq<real>>, n: nat, i: nat, j: nat)
    requires Square(m, n) && Square(target, n)
  {
    forall p, q :: 0 <= p < n && 0 <= q < n && Filled(i, j, p, q) ==> m[p][q] == target[p][q]
  }

  lemma FillCell(m: seq<seq<real>>, target: seq<seq<real>>, n: nat, i: nat, j: nat)
    requires Square(m, n) && Square(target, n) && FilledAs(m, target, n, i, j)
    requires i < n && j < n && i < j && target[j][i] == target[i][j]
    ensures FilledAs(Set2(Set2(m, i, j, target[i][j]), j, i, target[i][j]), target, n, i, j + 1)
  {
  }

  lemma FillDiagonal(m: seq<seq<real>>, target: seq<seq<real>>, n: nat, i: nat)
    requires Square(m, n) && Square(target, n) && FilledAs(m, target, n, i, i)
    requires i < n && target[i][i] == 1.0
    ensures FilledAs(Set2(m, i, i, 1.0), target, n, i, i + 1)
  {
  }

  /** Rewriting an already written pair with the same value changes nothing. */
  lemma FillMirror(m: seq<seq<real>>, target: seq<seq<real>>, n: nat, i: nat, j: nat)
    requires Square(m, n) && Square(target, n) && FilledAs(m, target, n, i, j)
    requires i < n && j < i && target[j][i] == target[i][j]
    ensures FilledAs(Set2(Set2(m, i, j, target[i][j]), j, i, target[i][j]), target, n, i, j + 1)
  {
  }

  lemma FillSkip(m: seq<seq<real>>, target: seq<seq<real>>, n: nat, i: nat, j: nat)
    requires Square(m, n) && Square(target, n) && FilledAs(m, target, n, i, j)
    requires j < i
    ensures FilledAs(m, target, n, i, j + 1)
  {
  }

  lemma FillRow(m: seq<seq<real>>, target: seq<seq<real>>, n: nat, i: nat)
    requires Square(m, n) && Square(target, n) && FilledAs(m, target, n, i, n)
    ensures FilledAs(m, target, n, i + 1, 0)
  {
  }

  lemma FillDone(m: seq<seq<real>>, target: seq<seq<real>>, n: nat)
    requires Square(m, n) && Square(target, n) && FilledAs(m, target, n, n, 0)
    ensures m == target
  {
    forall p | 0 <= p < n ensures m[p] == target[p] {
      assert forall q :: 0 <= q < n ==> Filled(n, 0, p, q);
    }
  }

  /** The rules of the seed-based grouping of `FamilyGrouper._cluster_dual_layer`
      and `VectorStore.get_clusters`: the lowest position not yet grouped
      seeds a new group, which takes every later ungrouped position linked to
      the seed, and nothing else. */
  ghost predicate SeedRules(link: seq<seq<bool>>, n: nat, groups: seq<seq<nat>>)
    requires Square(link, n)
    requires forall k :: 0 <= k < |groups| ==> groups[k] != []
    requires forall k, p :: 0 <= k < |groups| && 0 <= p < |groups[k]| ==> groups[k][p] < n
  {
    OrderedByFirst(groups)
    // the seed is the lowest position not in an earlier group
    && (forall k, x :: 0 <= k < |groups| && 0 <= x < groups[k][0] ==> InGroupBefore(groups, k, x))
    // members other than the seed are linked to the seed itself
    && (forall k, p :: 0 <= k < |groups| && 0 < p < |groups[k]| ==> link[groups[k][0]][groups[k][p]])
    // every later position linked to the seed and not taken earlier joins
    && (forall k, y ::
          0 <= k < |groups| && groups[k][0] < y < n && link[groups[k][0]][y] && !InGroupBefore(groups, k, y)
          ==> y in groups[k])
  }

  /** The outcome of the seed-based grouping over the link relation `link`. */
  ghost predicate SeedGrouping(link: seq<seq<bool>>, n: nat, groups: seq<seq<nat>>)
    requires Square(link, n)
  {
    IsPartition(groups, n) && SeedRules(link, n, groups)
  }

  /** Groups of positions below `n`: non-empty, increasing and disjoint. */
  ghost predicate Disjoint(groups: seq<seq<nat>>, n: nat) {
    (forall k :: 0 <= k < |groups| ==> groups[k] != [] && Increasing(groups[k]))
    && (forall k, p :: 0 <= k < |groups| && 0 <= p < |groups[k]| ==> groups[k][p] < n)
    && (forall k1, k2, x :: 0 <= k1 < k2 < |groups| && x in groups[k1] ==> x !in groups[k2])
  }

  /** The state of the outer loop before position `i`: every position below
      `i` is grouped and every group was seeded below `i` by the rules. */
  ghost predicate SeedPrefix(link: seq<seq<bool>>, n: nat, groups: seq<seq<nat>>, i: nat)
    requires Square(link, n)
  {
    i <= n && Disjoint(groups, n)
    && (forall x :: 0 <= x < i ==> InGroupBefore(groups, |groups|, x))
    && (forall k :: 0 <= k < |groups| ==> groups[k][0] < i)
    && SeedRules(link, n, groups)
  }

  /** The state of the inner loop for seed `i` before position `j`: `cur`
      holds the seed and, in order, the ungrouped positions below `j`
      linked to it. */
  ghost predicate SeedRow(link: seq<seq<bool>>, n: nat, groups: seq<seq<nat>>, i: nat, cur: seq<nat>, j: nat)
    requires Square(link, n)
  {
    SeedPrefix(link, n, groups, i) && i < n && j <= n && !InGroupBefore(groups, |groups|, i)
    && cur != [] && cur[0] == i && Increasing(cur)
    && (forall p :: 0 < p < |cur| ==> i < cur[p] < j && cur[p] < n)
    && (forall p :: 0 < p < |cur| ==> link[i][cur[p]] && !InGroupBefore(groups, |groups|, cur[p]))
    && (forall y :: i < y < j && y < n && link[i][y] && !InGroupBefore(groups, |groups|, y) ==> y in cur)
  }

  lemma SeedEmpty(link: seq<seq<bool>>, n: nat)
    requires Square(link, n)
    ensures SeedPrefix(link, n, [], 0)
  {
  }

  /** A position grouped earlier is passed over. */
  lemma SeedPass(link: seq<seq<bool>>, n: nat, groups: seq<seq<nat>>, i: nat)
    requires Square(link, n) && SeedPrefix(link, n, groups, i)
    requires i < n && InGroupBefore(groups, |groups|, i)
    ensures SeedPrefix(link, n, groups, i + 1)
  {
  }

  /** An ungrouped position seeds a group. */
  lemma SeedStart(link: seq<seq<bool>>, n: nat, groups: seq<seq<nat>>, i: nat, j: nat)
    requires Square(link, n) && SeedPrefix(link, n, groups, i)
    requires i < n && !InGroupBefore(groups, |groups|, i) && j <= i + 1
    ensures SeedRow(link, n, groups, i, [i], j)
  {
  }

  /** An ungrouped position linked to the seed joins it. */
  lemma SeedTake(link: seq<seq<bool>>, n: nat, groups: seq<seq<nat>>, i: nat, cur: seq<nat>, j: nat)
    requires Square(link, n) && SeedRow(link, n, groups, i, cur, j)
    requires i < j < n && link[i][j] && !InGroupBefore(groups, |groups|, j)
    ensures SeedRow(link, n, groups, i, cur + [j], j + 1)
  {
    var cur' := cur + [j];
    assert forall p :: 0 < p < |cur| ==> cur'[p] == cur[p];
    forall y | i < y < j + 1 && y < n && link[i][y] && !InGroupBefore(groups, |groups|, y) ensures y in cur' {
      if y < j {
        assert y in cur;
      } else {
        assert cur'[|cur|] == y;
      }
    }
  }

  /** Any other position is left for later. */
  lemma SeedSkip(link: seq<seq<bool>>, n: nat, groups: seq<seq<nat>>, i: nat, cur: seq<nat>, j: nat)
    requires Square(link, n) && SeedRow(link, n, groups, i, cur, j)
    requires j < n && (j <= i || !link[i][j] || InGroupBefore(groups, |groups|, j))
    ensures SeedRow(link, n, groups, i, cur, j + 1)
  {
  }

  /** Membership in the first groups of a longer list. */
  lemma InGroupBeforeSnoc(groups: seq<seq<nat>>, g: seq<nat>, k: nat, x: nat)
    requires k <= |groups|
    ensures InGroupBefore(groups + [g], k, x) == InGroupBefore(groups, k, x)
    ensures InGroupBefore(groups + [g], |groups| + 1, x) == (InGroupBefore(groups, |groups|, x) || x in g)
  {
    var gs := groups + [g];
    if InGroupBefore(gs, |groups| + 1, x) {
      var k' :| 0 <= k' < |groups| + 1 && x in gs[k'];
      if k' < |groups| {
        assert x in groups[k'];
      }
    }
    if x in g {
      assert x in gs[|groups|];
    }
    if InGroupBefore(gs, k, x) {
      var k' :| 0 <= k' < k && x in gs[k'];
      assert x in groups[k'];
    }
    if InGroupBefore(groups, k, x) {
      var k' :| 0 <= k' < k && x in groups[k'];
      assert x in gs[k'];
    }
    if InGroupBefore(groups, |groups|, x) {
      var k' :| 0 <= k' < |groups| && x in groups[k'];
      assert x in gs[k'];
    }
  }

  /** The seed's group is complete once the row is scanned. */
  lemma SeedClose(link: seq<seq<bool>>, n: nat, groups: seq<seq<nat>>, i: nat, cur: seq<nat>)
    requires Square(link, n) && SeedRow(link, n, groups, i, cur, n)
    ensures SeedPrefix(link, n, groups + [cur], i + 1)
  {
    var gs := groups + [cur];
    forall k, x | 0 <= k <= |groups| ensures InGroupBefore(gs, k, x) == InGroupBefore(groups, k, x) {
      InGroupBeforeSnoc(groups, cur, k, x);
    }
    forall x ensures InGroupBefore(gs, |gs|, x) == (InGroupBefore(groups, |groups|, x) || x in cur) {
      InGroupBeforeSnoc(groups, cur, |groups|, x);
    }
    SeedCloseDisjoint(link, n, groups, i, cur);
    assert cur in gs;
    assert gs[|groups|] == cur;
    assert InGroupBefore(gs, |gs|, i);
    SeedCloseRules(link, n, groups, i, cur);
  }

  lemma SeedCloseDisjoint(link: seq<seq<bool>>, n: nat, groups: seq<seq<nat>>, i: nat, cur: seq<nat>)
    requires Square(link, n) && SeedRow(link, n, groups, i, cur, n)
    ensures Disjoint(groups + [cur], n)
  {
    var gs := groups + [cur];
    forall k1, k2, x | 0 <= k1 < k2 < |gs| && x in gs[k1] ensures x !in gs[k2] {
      if k2 == |groups| {
        assert x in groups[k1];
      }
    }
  }

  lemma SeedCloseRules(link: seq<seq<bool>>, n: nat, groups: seq<seq<nat>>, i: nat, cur: seq<nat>)
    requires Square(link, n) && SeedRow(link, n, groups, i, cur, n)
    requires Disjoint(groups + [cur], n)
    requires forall k, x :: 0 <= k <= |groups| ==> InGroupBefore(groups + [cur], k, x) == InGroupBefore(groups, k, x)
    ensures SeedRules(link, n, groups + [cur])
  {
  }

  /** When the outer loop ends the rules describe the whole grouping. */
  lemma SeedFinish(link: seq<seq<bool>>, n: nat, groups: seq<seq<nat>>)
    requires Square(link, n) && SeedPrefix(link, n, groups, n)
    ensures SeedGrouping(link, n, groups)
  {
  }

  /** The positions of `s` that hold `v`, in increasing order. */
  function Positions<T(==)>(s: seq<T>, v: T): (r: seq<nat>)
    ensures |r| <= |s|
  {
    if s == [] then []
    else
      var init := Positions(s[..|s| - 1], v);
      if s[|s| - 1] == v then init + [|s| - 1] else init
  }

  /** `Positions(s, v)` lists, in increasing order, exactly the positions holding `v`. */
  lemma {:induction false} PositionsSpec<T>(s: seq<T>, v: T)
    ensures Increasing(Positions(s, v))
    ensures forall x :: x in Positions(s, v) <==> 0 <= x < |s| && s[x] == v
    ensures v !in s ==> Positions(s, v) == []
  {
    if s != [] {
      var init := s[..|s| - 1];
      PositionsSpec(init, v);
      assert forall p :: 0 <= p < |Positions(init, v)| ==> Positions(init, v)[p] in Positions(init, v);
    }
  }

  lemma PositionsSnoc<T>(s: seq<T>, x: T, v: T)
    ensures Positions(s + [x], v) == Positions(s, v) + (if x == v then [|s|] else [])
  {
    assert (s + [x])[..|s|] == s;
  }

  /** The first of the positions holding `v` is its first occurrence. */
  lemma PositionsFirst<T>(s: seq<T>, v: T)
    requires v in s
    ensures Positions(s, v) != [] && Positions(s, v)[0] == FirstIndex(s, v)
  {
    var ps := Positions(s, v);
    var i := FirstIndex(s, v);
    PositionsSpec(s, v);
    assert i in ps;
    assert ps[0] in ps;
    assert s[ps[0]] == v;
    assert forall k :: 0 <= k < i ==> s[..i][k] == s[k];
    assert forall p :: 0 < p < |ps| ==> ps[0] < ps[p];
  }

  // ---------------------------------------------------------------------
  // First-fit grouping: each admitted position joins the first group whose
  // first position it links to, or founds a new group.
  // ---------------------------------------------------------------------

  /** The groups hold exactly the positions below `i` (and below `n`) that
      `admit` accepts, each once, each group increasing, the groups in
      order of their first positions. */
  ghost predicate PlacedBy(groups: seq<seq<nat>>, i: nat, n: nat, admit: nat -> bool) {
    (forall k :: 0 <= k < |groups| ==> groups[k] != [] && Increasing(groups[k]))
    && (forall k, t :: 0 <= k < |groups| && 0 <= t < |groups[k]| ==>
          groups[k][t] < i && groups[k][t] < n && admit(groups[k][t]))
    && (forall q :: 0 <= q < i && q < n && admit(q) ==> InGroupBefore(groups, |groups|, q))
    && (forall k1, k2, q :: 0 <= k1 < k2 < |groups| && q in groups[k1] ==> q !in groups[k2])
    && (forall k1, k2 :: 0 <= k1 < k2 < |groups| ==> groups[k1][0] < groups[k2][0])
  }

  /** Every member failed to link to the first positions of all earlier
      groups, and every member after the first links to its own group's
      first position. */
  ghost predicate FirstFitBy(groups: seq<seq<nat>>, links: (nat, nat) -> bool) {
    forall k, t :: 0 <= k < |groups| && 0 <= t < |groups[k]| ==>
      (forall k' :: 0 <= k' < k && groups[k'] != [] ==> !links(groups[k][t], groups[k'][0]))
      && (t > 0 ==> links(groups[k][t], groups[k][0]))
  }

  /** Group `k` with position `i` appended. */
  function AddTo(groups: seq<seq<nat>>, k: nat, i: nat): (r: seq<seq<nat>>)
    requires k < |groups|
    ensures |r| == |groups| && r[k] == groups[k] + [i]
    ensures forall k' :: 0 <= k' < |groups| && k' != k ==> r[k'] == groups[k']
  {
    groups[k := groups[k] + [i]]
  }

  /** A position that is not admitted is passed over. */
  lemma PlacedSkip(groups: seq<seq<nat>>, i: nat, n: nat, admit: nat -> bool)
    requires PlacedBy(groups, i, n, admit) && !admit(i)
    ensures PlacedBy(groups, i + 1, n, admit)
  {
  }

  /** Position `i` appended to group `k`. */
  lemma PlacedJoin(groups: seq<seq<nat>>, i: nat, n: nat, admit: nat -> bool, k: nat)
    requires PlacedBy(groups, i, n, admit) && i < n && admit(i) && k < |groups|
    ensures PlacedBy(groups[k := groups[k] + [i]], i + 1, n, admit)
  {
    var g := groups[k := groups[k] + [i]];
    JoinShape(groups, i, n, admit, k);
    JoinCovers(groups, i, n, admit, k);
    JoinDisjoint(groups, i, n, admit, k);
  }

  lemma JoinShape(groups: seq<seq<nat>>, i: nat, n: nat, admit: nat -> bool, k: nat)
    requires PlacedBy(groups, i, n, admit) && i < n && admit(i) && k < |groups|
    ensures var g := groups[k := groups[k] + [i]];
      |g| == |groups|
      && (forall k' :: 0 <= k' < |g| ==> g[k'] != [] && Increasing(g[k']) && g[k'][0] == groups[k'][0])
      && (forall k', t :: 0 <= k' < |g| && 0 <= t < |g[k']| ==> g[k'][t] < i + 1 && g[k'][t] < n && admit(g[k'][t]))
  {
    var g := groups[k := groups[k] + [i]];
    assert Increasing(g[k]) by {
      assert forall t :: 0 <= t < |groups[k]| ==> groups[k][t] < i;
    }
  }

  lemma JoinCovers(groups: seq<seq<nat>>, i: nat, n: nat, admit: nat -> bool, k: nat)
    requires PlacedBy(groups, i, n, admit) && k < |groups|
    ensures forall q :: 0 <= q < i + 1 && q < n && admit(q) ==>
      InGroupBefore(groups[k := groups[k] + [i]], |groups|, q)
  {
    var g := groups[k := groups[k] + [i]];
    forall q | 0 <= q < i + 1 && q < n && admit(q)
      ensures InGroupBefore(g, |g|, q)
    {
      if q == i {
        assert q in g[k];
      } else {
        var k' :| 0 <= k' < |groups| && q in groups[k'];
        assert q in g[k'];
      }
    }
  }

  lemma JoinDisjoint(groups: seq<seq<nat>>, i: nat, n: nat, admit: nat -> bool, k: nat)
    requires PlacedBy(groups, i, n, admit) && k < |groups|
    ensures var g := groups[k := groups[k] + [i]];
      forall k1, k2, q :: 0 <= k1 < k2 < |g| && q in g[k1] ==> q !in g[k2]
  {
    var g := groups[k := groups[k] + [i]];
    forall k1, k2, q | 0 <= k1 < k2 < |g| && q in g[k1]
      ensures q !in g[k2]
    {
      if q == i {
        assert forall t :: 0 <= t < |groups[k1]| ==> groups[k1][t] < i;
        assert forall t :: 0 <= t < |groups[k2]| ==> groups[k2][t] < i;
      } else {
        assert q in groups[k1];
      }
    }
  }

  /** Position `i` founds a new group. */
  lemma PlacedSeed(groups: seq<seq<nat>>, i: nat, n: nat, admit: nat -> bool)
    requires PlacedBy(groups, i, n, admit) && i < n && admit(i)
    ensures PlacedBy(groups + [[i]], i + 1, n, admit)
  {
    SeedShapes(groups, i, n, admit);
    SeedCovers(groups, i, n, admit);
    SeedDisjoint(groups, i, n, admit);
  }

  lemma SeedShapes(groups: seq<seq<nat>>, i: nat, n: nat, admit: nat -> bool)
    requires PlacedBy(groups, i, n, admit) && i < n && admit(i)
    ensures var g := groups + [[i]];
      (forall k :: 0 <= k < |g| ==> g[k] != [] && Increasing(g[k]))
      && (forall k, t :: 0 <= k < |g| && 0 <= t < |g[k]| ==>
            g[k][t] < i + 1 && g[k][t] < n && admit(g[k][t]))
      && (forall k1, k2 :: 0 <= k1 < k2 < |g| ==> g[k1][0] < g[k2][0])
  {
    var g := groups + [[i]];
    assert forall k :: 0 <= k < |groups| ==> g[k] == groups[k];
    assert forall k :: 0 <= k < |groups| ==> groups[k][0] < i;
  }

  lemma SeedCovers(groups: seq<seq<nat>>, i: nat, n: nat, admit: nat -> bool)
    requires PlacedBy(groups, i, n, admit) && i < n && admit(i)
    ensures forall q :: 0 <= q < i + 1 && q < n && admit(q) ==> InGroupBefore(groups + [[i]], |groups| + 1, q)
  {
    var g := groups + [[i]];
    forall q | 0 <= q < i + 1 && q < n && admit(q)
      ensures InGroupBefore(g, |g|, q)
    {
      if q == i {
        assert q in g[|groups|];
      } else {
        var k' :| 0 <= k' < |groups| && q in groups[k'];
        assert q in g[k'];
      }
    }
  }

  lemma SeedDisjoint(groups: seq<seq<nat>>, i: nat, n: nat, admit: nat -> bool)
    requires PlacedBy(groups, i, n, admit)
    ensures var g := groups + [[i]];
      forall k1, k2, x :: 0 <= k1 < k2 < |g| && x in g[k1] ==> x !in g[k2]
  {
    var g := groups + [[i]];
    forall k1, k2, x | 0 <= k1 < k2 < |g| && x in g[k1] ensures x !in g[k2] {
      assert g[k1] == groups[k1];
      if k2 == |groups| {
        var t :| 0 <= t < |groups[k1]| && groups[k1][t] == x;
      } else {
        assert g[k2] == groups[k2];
      }
    }
  }

  /** Appending to group `k` a position that links to the first position
      of group `k` and of no earlier group keeps the first-fit rule. */
  lemma FirstFitJoin(groups: seq<seq<nat>>, links: (nat, nat) -> bool, k: nat, i: nat)
    requires FirstFitBy(groups, links) && k < |groups| && groups[k] != []
    requires forall k' :: 0 <= k' < k && groups[k'] != [] ==> !links(i, groups[k'][0])
    requires links(i, groups[k][0])
    ensures FirstFitBy(groups[k := groups[k] + [i]], links)
  {
    var g := groups[k := groups[k] + [i]];
    forall k1, t | 0 <= k1 < |g| && 0 <= t < |g[k1]|
      ensures (forall k' :: 0 <= k' < k1 && g[k'] != [] ==> !links(g[k1][t], g[k'][0]))
      ensures (t > 0 ==> links(g[k1][t], g[k1][0]))
    {
      assert forall k' :: 0 <= k' < |groups| && groups[k'] != [] ==> g[k'][0] == groups[k'][0];
      if k1 != k || t < |groups[k]| {
        assert g[k1][t] == groups[k1][t];
      }
    }
  }

  /** A position that links to the first position of no group founds a
      new group and keeps the first-fit rule. */
  lemma FirstFitSeed(groups: seq<seq<nat>>, links: (nat, nat) -> bool, i: nat)
    requires FirstFitBy(groups, links)
    requires forall k' :: 0 <= k' < |groups| && groups[k'] != [] ==> !links(i, groups[k'][0])
    ensures FirstFitBy(groups + [[i]], links)
  {
    var g := groups + [[i]];
    forall k1, t | 0 <= k1 < |g| && 0 <= t < |g[k1]|
      ensures (forall k' :: 0 <= k' < k1 && g[k'] != [] ==> !links(g[k1][t], g[k'][0]))
      ensures (t > 0 ==> links(g[k1][t], g[k1][0]))
    {
      if k1 < |groups| {
        assert g[k1] == groups[k1];
      }
    }
  }
}
