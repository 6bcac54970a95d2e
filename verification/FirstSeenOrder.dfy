/** The distinct keys of a list, in the order in which they are first seen. */
module FirstSeenOrder {
  function FirstSeen<K(==)>(keys: seq<K>): seq<K> {
    if keys == [] then []
    else
      var n := |keys| - 1;
      var before := FirstSeen(keys[..n]);
      if keys[n] in before then before else before + [keys[n]]
  }

  /** The key occurs at `p` and nowhere before. */
  predicate FirstAt<K(==)>(keys: seq<K>, key: K, p: nat) {
    p < |keys| && keys[p] == key && key !in keys[..p]
  }

  lemma {:induction false} FirstAtExists<K>(keys: seq<K>, key: K) returns (p: nat)
    requires key in keys
    ensures FirstAt(keys, key, p)
  {
    var n := |keys| - 1;
    if key in keys[..n] {
      p := FirstAtExists(keys[..n], key);
      assert keys[..n][..p] == keys[..p];
    } else {
      p := n;
      assert keys == keys[..n] + [keys[n]];
    }
  }

  lemma {:induction false} FirstSeenElements<K>(keys: seq<K>)
    ensures forall key :: key in FirstSeen(keys) <==> key in keys
    ensures forall i, j :: 0 <= i < j < |FirstSeen(keys)| ==> FirstSeen(keys)[i] != FirstSeen(keys)[j]
  {
    if keys != [] {
      FirstSeenElements(keys[..|keys| - 1]);
      assert keys == keys[..|keys| - 1] + [keys[|keys| - 1]];
    }
  }

  lemma SeenIff<K>(keys: seq<K>, key: K)
    ensures key in FirstSeen(keys) <==> key in keys
  {
    FirstSeenElements(keys);
  }

  lemma FirstAtInPrefix<K>(keys: seq<K>, key: K, p: nat, n: nat)
    requires FirstAt(keys, key, p) && n <= |keys| && key in keys[..n]
    ensures p < n && FirstAt(keys[..n], key, p)
  {
    var k :| 0 <= k < n && keys[k] == key;
    assert forall i :: 0 <= i < p ==> keys[i] in keys[..p];
    assert keys[..n][..p] == keys[..p];
  }

  /** The keys are listed in the order in which they first appear. */
  lemma {:induction false} FirstSeenInOrder<K>(keys: seq<K>, i: nat, j: nat, p: nat, q: nat)
    requires i < j < |FirstSeen(keys)|
    requires FirstAt(keys, FirstSeen(keys)[i], p) && FirstAt(keys, FirstSeen(keys)[j], q)
    ensures p < q
  {
    var n := |keys| - 1;
    FirstSeenElements(keys[..n]);
    FirstAtInPrefix(keys, FirstSeen(keys)[i], p, n);
    if j < |FirstSeen(keys[..n])| {
      FirstAtInPrefix(keys, FirstSeen(keys)[j], q, n);
      FirstSeenInOrder(keys[..n], i, j, p, q);
    } else {
      assert forall k :: 0 <= k < n ==> keys[k] in keys[..n];
    }
  }
}
