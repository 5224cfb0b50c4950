/** Python's `sorted(..., key=k, reverse=True)` / `list.sort(key=k, reverse=True)`
    on a list whose keys are `keys`: a stable sort, largest key first, in which
    elements with equal keys keep their original relative order. The sort is
    described on positions: the result lists the positions `0 .. |keys| - 1`. */
module Sorting {

  predicate InRange(keys: seq<real>, order: seq<nat>) {
    forall p :: 0 <= p < |order| ==> order[p] < |keys|
  }

  predicate SortedDesc(keys: seq<real>, order: seq<nat>)
    requires InRange(keys, order)
  {
    forall p, q :: 0 <= p < q < |order| ==> keys[order[p]] >= keys[order[q]]
  }

  /** Equal keys appear in increasing position order. */
  predicate Stable(keys: seq<real>, order: seq<nat>)
    requires InRange(keys, order)
  {
    forall p, q :: 0 <= p < q < |order| && keys[order[p]] == keys[order[q]] ==> order[p] < order[q]
  }

  predicate Distinct(order: seq<nat>) {
    forall p, q :: 0 <= p < q < |order| ==> order[p] != order[q]
  }

  /** Inserts position `i` behind every element whose key is at least `keys[i]`. */
  function InsertDesc(keys: seq<real>, order: seq<nat>, i: nat): (r: seq<nat>)
    requires i < |keys| && InRange(keys, order)
    ensures InRange(keys, r) && |r| == |order| + 1
    ensures forall x :: x in r <==> x in order || x == i
  {
    if order == [] then [i]
    else if keys[order[0]] >= keys[i] then
      var rest := InsertDesc(keys, order[1..], i);
      assert forall x :: x in order <==> x == order[0] || x in order[1..];
      [order[0]] + rest
    else
      [i] + order
  }

  /** A head whose key is at least every later key keeps a descending
      order descending. */
  lemma SortedCons(keys: seq<real>, h: nat, rest: seq<nat>)
    requires h < |keys| && InRange(keys, rest) && SortedDesc(keys, rest)
    requires forall q :: 0 <= q < |rest| ==> keys[h] >= keys[rest[q]]
    ensures InRange(keys, [h] + rest) && SortedDesc(keys, [h] + rest)
  {
    var r := [h] + rest;
    assert forall q :: 0 < q < |r| ==> r[q] == rest[q - 1];
  }

  lemma {:induction false} InsertKeepsSorted(keys: seq<real>, order: seq<nat>, i: nat)
    requires i < |keys| && InRange(keys, order) && SortedDesc(keys, order)
    ensures SortedDesc(keys, InsertDesc(keys, order, i))
  {
    if order != [] && keys[order[0]] >= keys[i] {
      var rest := InsertDesc(keys, order[1..], i);
      InsertKeepsSorted(keys, order[1..], i);
      forall q | 0 <= q < |rest| ensures keys[order[0]] >= keys[rest[q]] {
        assert rest[q] in rest;
        if rest[q] != i {
          var k :| 0 <= k < |order[1..]| && order[1..][k] == rest[q];
          assert order[k + 1] == rest[q];
        }
      }
      SortedCons(keys, order[0], rest);
    } else if order != [] {
      assert InsertDesc(keys, order, i) == [i] + order;
      assert forall q :: 0 <= q < |order| ==> keys[order[0]] >= keys[order[q]];
      SortedCons(keys, i, order);
    }
  }

  /** A head that comes before every later element with the same key keeps
      a stable order stable. */
  lemma StableCons(keys: seq<real>, h: nat, rest: seq<nat>)
    requires h < |keys| && InRange(keys, rest) && Stable(keys, rest)
    requires forall q :: 0 <= q < |rest| && keys[h] == keys[rest[q]] ==> h < rest[q]
    ensures InRange(keys, [h] + rest) && Stable(keys, [h] + rest)
  {
    var r := [h] + rest;
    assert forall q :: 0 < q < |r| ==> r[q] == rest[q - 1];
  }

  lemma {:induction false} InsertKeepsStable(keys: seq<real>, order: seq<nat>, i: nat)
    requires i < |keys| && InRange(keys, order) && SortedDesc(keys, order) && Stable(keys, order)
    requires forall p :: 0 <= p < |order| ==> order[p] < i
    ensures Stable(keys, InsertDesc(keys, order, i))
  {
    if order != [] && keys[order[0]] >= keys[i] {
      var rest := InsertDesc(keys, order[1..], i);
      InsertKeepsStable(keys, order[1..], i);
      forall q | 0 <= q < |rest| && keys[order[0]] == keys[rest[q]] ensures order[0] < rest[q] {
        assert rest[q] in rest;
        if rest[q] != i {
          var k :| 0 <= k < |order[1..]| && order[1..][k] == rest[q];
          assert order[k + 1] == rest[q];
        }
      }
      StableCons(keys, order[0], rest);
    } else if order != [] {
      assert InsertDesc(keys, order, i) == [i] + order;
      assert forall q :: 0 <= q < |order| ==> keys[order[0]] >= keys[order[q]];
      StableCons(keys, i, order);
    }
  }

  /** A head that does not occur later keeps a list free of repeats. */
  lemma DistinctCons(h: nat, rest: seq<nat>)
    requires Distinct(rest) && h !in rest
    ensures Distinct([h] + rest)
  {
    var r := [h] + rest;
    assert forall q :: 0 < q < |r| ==> r[q] == rest[q - 1];
  }

  lemma {:induction false} InsertKeepsDistinct(keys: seq<real>, order: seq<nat>, i: nat)
    requires i < |keys| && InRange(keys, order) && Distinct(order) && i !in order
    ensures Distinct(InsertDesc(keys, order, i))
  {
    if order != [] && keys[order[0]] >= keys[i] {
      var rest := InsertDesc(keys, order[1..], i);
      assert Distinct(order[1..]) by {
        assert forall k :: 0 <= k < |order[1..]| ==> order[1..][k] == order[k + 1];
      }
      InsertKeepsDistinct(keys, order[1..], i);
      assert order[0] !in order[1..] by {
        assert forall k :: 0 <= k < |order[1..]| ==> order[1..][k] == order[k + 1] != order[0];
      }
      DistinctCons(order[0], rest);
    } else if order != [] {
      assert InsertDesc(keys, order, i) == [i] + order;
      DistinctCons(i, order);
    }
  }

  /** Positions `0 .. n - 1` sorted. */
  function SortPrefix(keys: seq<real>, n: nat): (r: seq<nat>)
    requires n <= |keys|
    ensures InRange(keys, r) && |r| == n
    ensures forall x :: x in r <==> 0 <= x < n
    ensures SortedDesc(keys, r) && Stable(keys, r) && Distinct(r)
  {
    if n == 0 then []
    else
      var prev := SortPrefix(keys, n - 1);
      assert forall p :: 0 <= p < |prev| ==> prev[p] < n - 1 by {
        forall p | 0 <= p < |prev| ensures prev[p] < n - 1 { assert prev[p] in prev; }
      }
      InsertKeepsSorted(keys, prev, n - 1);
      InsertKeepsStable(keys, prev, n - 1);
      InsertKeepsDistinct(keys, prev, n - 1);
      InsertDesc(keys, prev, n - 1)
  }

  /** The order in which a stable descending sort lists the positions of `keys`:
      sorted by key, equal keys in position order, every position present. */
  function SortDesc(keys: seq<real>): (r: seq<nat>)
    ensures InRange(keys, r) && |r| == |keys|
    ensures forall x :: x in r <==> 0 <= x < |keys|
    ensures SortedDesc(keys, r) && Stable(keys, r) && Distinct(r)
  {
    SortPrefix(keys, |keys|)
  }

}
