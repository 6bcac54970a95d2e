/** Grouping a list by a key, the groups in the order in which their keys are first seen. */
module Grouping {
  import opened FirstSeenOrder

  function Keys<T, K(==)>(points: seq<T>, key: T -> K): seq<K> {
    if points == [] then [] else Keys(points[..|points| - 1], key) + [key(points[|points| - 1])]
  }

  /** The points with the key `k`, in the order of the input. */
  function Filter<T, K(==)>(points: seq<T>, key: T -> K, k: K): seq<T> {
    if points == [] then []
    else
      var last := points[|points| - 1];
      Filter(points[..|points| - 1], key, k) + if key(last) == k then [last] else []
  }

  function Order<T, K(==)>(points: seq<T>, key: T -> K): seq<K> {
    FirstSeen(Keys(points, key))
  }

  lemma {:induction false} KeysOfPoints<T, K>(points: seq<T>, key: T -> K)
    ensures |Keys(points, key)| == |points|
    ensures forall i :: 0 <= i < |points| ==> Keys(points, key)[i] == key(points[i])
  {
    if points != [] {
      KeysOfPoints(points[..|points| - 1], key);
    }
  }

  /** A group is empty exactly if its key does not occur, and holds exactly the points with its key. */
  lemma {:induction false} FilterIsExact<T, K>(points: seq<T>, key: T -> K, k: K)
    ensures Filter(points, key, k) == [] <==> k !in Keys(points, key)
    ensures forall p :: p in Filter(points, key, k) <==> p in points && key(p) == k
  {
    if points != [] {
      FilterIsExact(points[..|points| - 1], key, k);
      assert points == points[..|points| - 1] + [points[|points| - 1]];
    }
  }

  /** The loop over the points, with a map of groups and the list of their keys. */
  method Group<T, K(==)>(points: seq<T>, key: T -> K) returns (order: seq<K>, groups: map<K, seq<T>>)
    ensures order == Order(points, key)
    ensures forall k :: k in groups <==> k in order
    ensures forall k :: k in groups ==> groups[k] != [] && groups[k] == Filter(points, key, k)
  {
    order, groups := [], map[];
    for i := 0 to |points|
      invariant order == Order(points[..i], key)
      invariant forall k :: k in groups <==> k in order
      invariant forall k :: k in groups ==> groups[k] == Filter(points[..i], key, k)
    {
      var p := points[i];
      var k := key(p);
      assert points[..i + 1][..i] == points[..i];
      NewKey(points, key, i);
      if k !in groups {
        groups := groups[k := []];
        order := order + [k];
      }
      groups := groups[k := groups[k] + [p]];
    }
    assert points[..|points|] == points;
    FirstSeenElements(Keys(points, key));
    forall k | k in groups ensures groups[k] != [] {
      FilterIsExact(points, key, k);
    }
  }

  lemma NewKey<T, K>(points: seq<T>, key: T -> K, i: nat)
    requires i < |points|
    ensures var before, k := Order(points[..i], key), key(points[i]);
      && Order(points[..i + 1], key) == (if k in before then before else before + [k])
      && (k !in before ==> Filter(points[..i], key, k) == [])
  {
    var earlier := Keys(points[..i], key);
    assert points[..i + 1][..i] == points[..i];
    assert (earlier + [key(points[i])])[..|earlier|] == earlier;
    SeenIff(earlier, key(points[i]));
    FilterIsExact(points[..i], key, key(points[i]));
  }

  // ---- Conservation ----

  function Sum<T>(points: seq<T>, f: T -> int): int {
    if points == [] then 0 else Sum(points[..|points| - 1], f) + f(points[|points| - 1])
  }

  /** The sum over the groups named by `order`. */
  function GroupSum<T, K(==)>(points: seq<T>, key: T -> K, order: seq<K>, f: T -> int): int {
    if order == [] then 0
    else GroupSum(points, key, order[..|order| - 1], f) + Sum(Filter(points, key, order[|order| - 1]), f)
  }

  lemma SumAppend<T>(points: seq<T>, p: T, f: T -> int)
    ensures Sum(points + [p], f) == Sum(points, f) + f(p)
  {
    assert (points + [p])[..|points|] == points;
  }

  /** One more point adds to the sum of its own group only. */
  lemma {:induction false} GroupSumOfOneMore<T, K>(points: seq<T>, key: T -> K, order: seq<K>, f: T -> int)
    requires points != [] && forall i, j :: 0 <= i < j < |order| ==> order[i] != order[j]
    ensures var before, last := points[..|points| - 1], points[|points| - 1];
      GroupSum(points, key, order, f) == GroupSum(before, key, order, f) + if key(last) in order then f(last) else 0
  {
    if order != [] {
      var n := |order| - 1;
      GroupSumOfOneMore(points, key, order[..n], f);
      assert order == order[..n] + [order[n]];
      var before, last := points[..|points| - 1], points[|points| - 1];
      if key(last) == order[n] {
        SumAppend(Filter(before, key, order[n]), last, f);
      } else {
        assert Filter(points, key, order[n]) == Filter(before, key, order[n]);
      }
    }
  }

  lemma GroupSumOfNewKey<T, K>(points: seq<T>, key: T -> K, order: seq<K>, k: K, f: T -> int)
    ensures GroupSum(points, key, order + [k], f) == GroupSum(points, key, order, f) + Sum(Filter(points, key, k), f)
  {
    assert (order + [k])[..|order|] == order;
  }

  /** Every point is counted in exactly one group. */
  lemma {:induction false} GroupsConserve<T, K>(points: seq<T>, key: T -> K, f: T -> int)
    ensures GroupSum(points, key, Order(points, key), f) == Sum(points, f)
  {
    if points != [] {
      var n := |points| - 1;
      var before, last := points[..n], points[n];
      GroupsConserve(before, key, f);
      assert points[..n + 1] == points;
      NewKey(points, key, n);
      FirstSeenElements(Keys(before, key));
      var order := Order(before, key);
      GroupSumOfOneMore(points, key, order, f);
      if key(last) !in order {
        GroupSumOfNewKey(points, key, order, key(last), f);
        assert Filter(points, key, key(last)) == [last];
        SumAppend([], last, f);
        assert [] + [last] == [last];
      }
    }
  }

  /** Summing one figure per group sums the groups. */
  lemma {:induction false} SumOfFigures<T, K>(points: seq<T>, key: T -> K, order: seq<K>, figures: seq<T>, f: T -> int)
    requires |figures| == |order|
    requires forall i :: 0 <= i < |order| ==> f(figures[i]) == Sum(Filter(points, key, order[i]), f)
    ensures Sum(figures, f) == GroupSum(points, key, order, f)
  {
    if order != [] {
      SumOfFigures(points, key, order[..|order| - 1], figures[..|order| - 1], f);
    }
  }

  /** Every point is in the group of its key, and in no other. */
  lemma PointInOneGroup<T, K>(points: seq<T>, key: T -> K, p: T) returns (i: nat)
    requires p in points
    ensures i < |Order(points, key)| && Order(points, key)[i] == key(p)
    ensures forall j :: 0 <= j < |Order(points, key)| ==>
      (p in Filter(points, key, Order(points, key)[j]) <==> j == i)
  {
    var order := Order(points, key);
    FilterIsExact(points, key, key(p));
    SeenIff(Keys(points, key), key(p));
    FirstSeenElements(Keys(points, key));
    i :| 0 <= i < |order| && order[i] == key(p);
    forall j | 0 <= j < |order| ensures p in Filter(points, key, order[j]) <==> j == i {
      FilterIsExact(points, key, order[j]);
    }
  }

  // ---- Order ----

  /**
   * If the keys of the points never go back in time, every point of an earlier group
   * comes before every point of a later one.
   */
  lemma GroupsInOrder<T, K>(points: seq<T>, key: T -> K, rank: T -> int, i: nat, j: nat, a: nat, b: nat)
    requires forall x, y :: 0 <= x <= y < |points| ==> rank(points[x]) <= rank(points[y])
    requires forall x, y :: 0 <= x < |points| && 0 <= y < |points| ==>
      (key(points[x]) == key(points[y]) <==> rank(points[x]) == rank(points[y]))
    requires i < j < |Order(points, key)| && a < |points| && b < |points|
    requires key(points[a]) == Order(points, key)[i] && key(points[b]) == Order(points, key)[j]
    ensures a < b && rank(points[a]) < rank(points[b])
  {
    var keys, order := Keys(points, key), Order(points, key);
    KeysOfPoints(points, key);
    FirstSeenElements(keys);
    assert keys[a] == order[i] && keys[b] == order[j];
    var p := FirstAtExists(keys, order[i]);
    var q := FirstAtExists(keys, order[j]);
    FirstSeenInOrder(keys, i, j, p, q);
    assert key(points[p]) == order[i] && key(points[q]) == order[j];
    assert rank(points[p]) == rank(points[a]) && rank(points[q]) == rank(points[b]);
    assert rank(points[p]) <= rank(points[q]) && rank(points[a]) != rank(points[b]);
  }
}
