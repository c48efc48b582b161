/**
 * Iteration order of std::map<string, V> and std::multimap<string, string>:
 * keys are visited in increasing lexicographic order.
 */
module StdMap {
  import opened StdString

  predicate IsLeast(k: string, keys: set<string>)
  {
    k in keys && forall j :: j in keys ==> LexLe(k, j)
  }

  predicate StrictlyIncreasing(s: seq<string>)
  {
    forall i, j :: 0 <= i < j < |s| ==> LexLess(s[i], s[j])
  }

  lemma {:induction false} LeastExists(keys: set<string>)
    requires keys != {}
    ensures exists k :: IsLeast(k, keys)
    decreases |keys|
  {
    var x :| x in keys;
    if keys == {x} {
      LexLessIrreflexive(x);
      assert IsLeast(x, keys);
    } else {
      var rest := keys - {x};
      LeastExists(rest);
      var y :| IsLeast(y, rest);
      LexLessTotal(x, y);
      if LexLess(x, y) {
        LexLessAsymmetric(x, y);
        forall j | j in keys ensures LexLe(x, j) {
          if j == x {
            LexLessIrreflexive(x);
          } else {
            assert LexLe(y, j);
            LexLeTransitive(x, y, j);
          }
        }
        assert IsLeast(x, keys);
      } else {
        forall j | j in keys ensures LexLe(y, j) {
          if j == x {
            LexLessAsymmetric(x, y);
          }
        }
        assert IsLeast(y, keys);
      }
    }
  }

  lemma LeastUnique(keys: set<string>)
    ensures forall a, b :: IsLeast(a, keys) && IsLeast(b, keys) ==> a == b
  {
    forall a, b | IsLeast(a, keys) && IsLeast(b, keys) ensures a == b {
      LexLessTotal(a, b);
    }
  }

  lemma RemoveLeast<V>(m: map<string, V>, k: string)
    requires IsLeast(k, m.Keys)
    ensures |m - {k}| == |m| - 1
    ensures forall j :: j in m - {k} ==> LexLess(k, j)
  {
    assert (m - {k}).Keys == m.Keys - {k};
    forall j | j in m - {k} ensures LexLess(k, j) {
      LexLessTotal(k, j);
    }
  }

  lemma PrependIncreasing(k: string, tail: seq<string>)
    requires StrictlyIncreasing(tail)
    requires forall i :: 0 <= i < |tail| ==> LexLess(k, tail[i])
    ensures StrictlyIncreasing([k] + tail)
  {
    var r := [k] + tail;
    forall i, j | 0 <= i < j < |r| ensures LexLess(r[i], r[j]) {
      if i > 0 {
        assert r[i] == tail[i - 1] && r[j] == tail[j - 1];
      } else {
        assert r[j] == tail[j - 1];
      }
    }
  }

  /**
   * The keys of m in the order a std::map iteration visits them. That these
   * are exactly the keys, in strictly increasing order, is OrderedKeysFacts.
   */
  function OrderedKeys<V>(m: map<string, V>): (r: seq<string>)
    ensures |r| == |m|
    ensures forall i :: 0 <= i < |r| ==> r[i] in m
    decreases |m|
  {
    if |m| == 0 then []
    else
      LeastExists(m.Keys);
      LeastUnique(m.Keys);
      var k :| IsLeast(k, m.Keys);
      RemoveLeast(m, k);
      [k] + OrderedKeys(m - {k})
  }

  /** Every key of m is visited, and the keys come in strictly increasing order. */
  lemma {:induction false} OrderedKeysFacts<V>(m: map<string, V>)
    ensures forall k :: k in OrderedKeys(m) <==> k in m
    ensures StrictlyIncreasing(OrderedKeys(m))
    decreases |m|
  {
    if |m| > 0 {
      LeastExists(m.Keys);
      LeastUnique(m.Keys);
      var k :| IsLeast(k, m.Keys);
      RemoveLeast(m, k);
      OrderedKeysFacts(m - {k});
      var tail := OrderedKeys(m - {k});
      assert OrderedKeys(m) == [k] + tail;
      forall i | 0 <= i < |tail| ensures LexLess(k, tail[i]) {
        assert tail[i] in m - {k};
      }
      PrependIncreasing(k, tail);
    }
  }
}
